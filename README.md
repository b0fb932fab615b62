# Section extractor of lib-obsidian-query, modelled in Dafny

The `Query` class in `query.js` pulls "sections" out of a Markdown note. It is
given the note's raw text and the outline the host's metadata cache computed
for it (the list of headings with their lines and offsets, and the list of
inline tags with their lines). For every selected heading it returns a record
of three strings: the heading rendered as `#`×level, a space and the title;
an opaque link that the host renders from the note's basename and the title;
and the body of the section.

The body starts one character after the end offset of the heading line. It
ends at the start offset of the first heading in the list whose level is at
most this heading's level and whose start line is greater. Without such a
heading it runs to the end of the text. Deeper sub-headings therefore belong
to the parent's body.

Headings are selected in two ways:

- by tag: for each tag whose name satisfies a predicate, in tag order, the
  first heading starting on the tag's line;
- by heading: each heading that satisfies a predicate, in heading order.

Two thin wrappers select by exact tag name and by exact heading level.

Files:

- `js_array.dfy`, module `JsArray`: the first-match search of
  `Array.prototype.find` (`FindIndex`, `Find`) and order-preserving selection
  (`Filter`), with the lemmas about selection.
- `js_string.dfy`, module `JsString`: `String.prototype.substring`, with its
  clamping of both indices into [0, length] and its swap of reversed indices,
  the one-argument form, and `String.prototype.repeat`.
- `query.dfy`, module `Query`: the outline datatypes, `newHeading`, the
  boundary rule, tag ownership (`Owners`), the two extraction loops as methods proved against the
  specification functions `ByHeading` and `ByTag`, the two wrappers, and the
  properties of all of these.
- `query_scenarios.dfy`, module `QueryScenarios`: the note
  `"# A\nfoo\n## B\nbar\n# C\nbaz"` worked through by the verifier.

`newSection` only builds a record; it is the `Section` datatype's
constructor, applied in `Query.MakeSection`. The host's link renderer is the
parameter `link` of type `(string, string) -> string`, and nothing is assumed
about it.

Two behaviours of the code worth stating:

- A selected tag on a line where no heading starts is not skipped: the code
  dereferences the missing heading at query.js:59, which throws, so the whole
  call fails. `ByTag` returns `Failure(NoHeadingOnLine(line))` for the first
  such tag in tag order.
- Sections by tag come in tag order, the order the loop at query.js:56 scans.

## Model

| member | source | states |
|---|---|---|
| `JsArray.FindIndex` | query.js:58-62 | the index of the first element satisfying the predicate, or none exactly when no element does, as `find` scans |
| `JsString.Substring` | query.js:66-67 | `substring(start, end)`: at most as long as the text; the plain slice for in-range indices in either order; empty when both indices are clamped to the same end |
| `JsString.SubstringFrom` | query.js:68 | `substring(start)`: the suffix from `start`, the whole text for `start <= 0`, empty from the length on |
| `JsString.SubstringSymmetric` | query.js:67 | swapping the two indices of `substring` does not change the result |
| `JsString.Repeat` | query.js:34 | `"#".repeat(n)` has length `n` and every character is the marker |
| `Query.NewHeading` | query.js:32-39 | for a positive level: `level` markers, one space, then the title, of length `level + 1` plus the title's length; otherwise the title unchanged |
| `Query.NewHeadingParses` | query.js:32-39 | reading a rendered heading back gives its level and title, so rendering loses nothing (for level 0, when the title does not start with a marker) |
| `Query.ContentIsSpan` | query.js:59-68 | on a well-formed outline the body is the text from one past the heading line's end to the start offset of the closing heading, which comes later in the list, with length `next.startOffset - (endOffset + 1)`; without a closing heading it is the rest of the text, empty when the heading line ends the text |
| `Query.DeeperHeadingsNeverClose` | query.js:61-62 | the closing heading found in the full list is the one found after removing every heading deeper than the current one |
| `Query.ClosedAfterSubtree` | query.js:87-88 | the closing heading comes after every heading of the subtree that follows the current heading |
| `Query.BodyEndNests` | query.js:85-94 | a sub-heading's body ends no later than its parent's body |
| `Query.SubHeadingInsideParent` | query.js:85-94 | a deeper sub-heading's line lies inside the parent's body, at its own offset shifted by the body's start |
| `Query.SelectSectionsByHeading` | query.js:77-101 | the loop returns exactly `ByHeading`: one section per heading satisfying the predicate, in heading order |
| `Query.ByHeadingOnePerMatch` | query.js:83-99 | as many sections as matching headings; the k-th section is that of the k-th matching heading; every matching heading has its section; the result is empty exactly when no heading matches |
| `Query.ByHeadingSplit` | query.js:83-99 | for any split of the heading list, the sections of the earlier part come before those of the later part |
| `Query.SelectSectionsByTag` | query.js:49-75 | the loop returns exactly `ByTag`, including failing at the first selected tag without an owning heading |
| `Query.OwnerOf` | query.js:58 | the owner of a tag's line starts on that line and is the first heading in the list that does |
| `Query.OwnerFound` | query.js:58 | the owner search succeeds exactly when some heading starts on the tag's line, and then finds the first such heading |
| `Query.OwnersResolved` | query.js:56-59 | when owner resolution succeeds, there is one owner per selected tag, in tag order, each the first heading on that tag's line |
| `Query.ByTagSucceedsIff` | query.js:56-59 | extraction by tag succeeds exactly when every tag whose name satisfies the predicate sits on a heading's start line |
| `Query.ByTagSections` | query.js:56-73 | on success, one section per selected tag, in tag order, each for the first heading on that tag's line |
| `Query.ByTagFailsAtFirstOrphan` | query.js:56-59 | the failure names the line of the first selected tag that has no heading on its line |
| `Query.SameLineTagsGiveEqualSections` | query.js:56-73 | no deduplication: two selected tags on the same line give two equal sections at their own positions |
| `Query.ByTagIgnoresUnselected` | query.js:56-57 | tags whose names fail the predicate change neither the sections nor the failure |
| `Query.SelectSectionsByTagName` | query.js:107-109 | returns extraction by tag with the predicate "name equals the given name" |
| `Query.ByTagNameSelectsName` | query.js:107-109 | on success, one section per tag carrying exactly the given name |
| `Query.SelectSectionsByHeadingLevel` | query.js:118-120 | returns extraction by heading with the predicate "level equals the given level" |
| `Query.ByHeadingLevelRendersLevel` | query.js:118-120 | for a positive level, one section per heading of that level, each rendered heading reading back as that level |
| `QueryScenarios.ByLevelOne` | query.js:83-99 | level-1 extraction of the sample note gives `"# A"` with body `"foo\n## B\nbar\n"` and `"# C"` with body `"baz"` |
| `QueryScenarios.TagOnHeadingLine` | query.js:56-73 | a tag on line 2 of the sample note gives `"## B"` with body `"bar\n"` |
| `QueryScenarios.TwoTagsOneHeading` | query.js:56-73 | two matching tags on line 2 give two identical sections |
| `QueryScenarios.TagOffHeadingLine` | query.js:58-59 | a matching tag on line 1, where no heading starts, makes the whole call fail |
| `QueryScenarios.LastLineHeading` | query.js:85-94 | a heading line that ends the text without a newline has an empty body, because `substring` clamps |
| `QueryScenarios.RenderExamples` | query.js:32-39 | level 2 renders "Intro" as "## Intro", level 0 leaves it bare |

## Left out

- Loading the note's text (`this._dv.io.load`, query.js:51 and query.js:79): asynchronous file I/O; the text is a parameter.
- The metadata cache (`app.metadataCache.getFileCache`, query.js:52 and query.js:80) and `selectAllFiles` (`app.vault.getMarkdownFiles`, query.js:27-30): host state; headings and tags are parameters, and listing the vault is not modelled.
- `this._dv.sectionLink` (query.js:65 and query.js:91): host-defined; it is an arbitrary function parameter and nothing is proved about its output.
- `setDataview` and the `_dv` field (query.js:21-25): host wiring with no behaviour of its own.
- `async`/`await`, and the crash when the cache has no `tags` or `headings` list: absence of host data, not extraction logic.
- The usage comment (query.js:1-17): a rendering example for the host's table view.
- JavaScript numbers: levels, lines and offsets are integers; NaN, fractions and `undefined` offsets are not modelled.
- The host's heading record is reduced to its title, level, start line and start and end offsets; `position.start.col`, `position.end.line` and `position.end.col` are dropped, so a heading predicate reading them (query.js:84 hands it the whole record) cannot be written in the model. Tags likewise keep only their name and start line.
- Text is a sequence of characters; offsets are assumed to count the same units. UTF-16 code units are not distinguished from code points.
- Query.ContentIsSpan, Query.SubHeadingInsideParent, Query.ClosedAfterSubtree, Query.BodyEndNests: these assume a well-formed outline (offsets in range, lines strictly increasing, heading lines not overlapping). The extraction functions themselves assume nothing and follow `substring`'s clamping on any input.
