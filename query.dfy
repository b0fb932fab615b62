// The section extractor of the `Query` class. The host's file loader,
// metadata cache and link renderer are replaced by parameters: the note's
// text, its heading and tag lists, its basename and a link function.

module Query {
  import opened JsArray
  import opened JsString

  /** One heading of a note's outline: title, depth and the span of its line. */
  datatype Heading = Heading(text: string, level: int, startLine: int, startOffset: int, endOffset: int)

  /** An inline tag and the line it starts on. */
  datatype Tag = Tag(name: string, startLine: int)

  /** One extracted section: rendered heading, host link and body text. */
  datatype Section = Section(heading: string, link: string, content: string)

  /**
   * The only failure of the extraction itself: a selected tag on a line where
   * no heading starts, whose missing owner the source dereferences.
   */
  datatype Error = NoHeadingOnLine(line: int)

  datatype Result<T> = Success(value: T) | Failure(error: Error)

  /** The host's section-link renderer, applied to (basename, heading title). */
  type LinkRenderer = (string, string) -> string

  // ---------------------------------------------------------------------------
  // Rendering a heading

  /** `newHeading`: `level` markers, a space and the title; the bare title when `level` is not positive. */
  function NewHeading(text: string, level: int): (r: string)
    ensures level > 0 ==> |r| == level + 1 + |text|
    ensures level > 0 ==> (forall i :: 0 <= i < level ==> r[i] == '#') && r[level] == ' ' && r[level + 1..] == text
    ensures level <= 0 ==> r == text
  {
    if 0 < level then Repeat('#', level) + " " + text else text
  }

  /** The number of `#` markers a heading line starts with. */
  function LeadingMarkers(s: string): nat
  {
    if |s| > 0 && s[0] == '#' then 1 + LeadingMarkers(s[1..]) else 0
  }

  /** Reads a rendered heading back as (level, title); text without a marker run and space is level 0. */
  function ParseHeading(s: string): (int, string)
  {
    var n := LeadingMarkers(s);
    if 0 < n < |s| && s[n] == ' ' then (n, s[n + 1..]) else (0, s)
  }

  lemma {:induction false} LeadingMarkersCount(s: string, n: nat)
    requires n < |s| && s[n] != '#'
    requires forall i :: 0 <= i < n ==> s[i] == '#'
    ensures LeadingMarkers(s) == n
    decreases n
  {
    if n > 0 {
      LeadingMarkersCount(s[1..], n - 1);
    }
  }

  /** A rendered heading gives back its level and title: rendering loses nothing. */
  lemma NewHeadingParses(text: string, level: int)
    requires level > 0 || text == [] || text[0] != '#'
    ensures ParseHeading(NewHeading(text, level)) == if level > 0 then (level, text) else (0, text)
  {
    var r := NewHeading(text, level);
    if level > 0 {
      LeadingMarkersCount(r, level);
    } else if text != [] {
      LeadingMarkersCount(r, 0);
    }
  }

  // ---------------------------------------------------------------------------
  // The boundary of a section

  /** `g` ends the section of `h`: at the same depth or shallower, on a later line. */
  predicate Closes(h: Heading, g: Heading)
  {
    g.level <= h.level && g.startLine > h.startLine
  }

  function ClosesFn(h: Heading): Heading -> bool
  {
    (g: Heading) => Closes(h, g)
  }

  function StartsOnLine(line: int): Heading -> bool
  {
    (g: Heading) => g.startLine == line
  }

  /**
   * The body of the section of `h`: from one past the end of the heading line
   * to the start of the first closing heading, or to the end of the text.
   */
  function SectionContent(text: string, headings: seq<Heading>, h: Heading): string
  {
    var sectionStart := h.endOffset + 1;
    match Find(headings, ClosesFn(h))
    case Some(next) => Substring(text, sectionStart, next.startOffset)
    case None => SubstringFrom(text, sectionStart)
  }

  /** `newSection` applied to the rendered heading, its link and its body. */
  function MakeSection(text: string, basename: string, headings: seq<Heading>, h: Heading, link: LinkRenderer): Section
  {
    Section(NewHeading(h.text, h.level), link(basename, h.text), SectionContent(text, headings, h))
  }

  /**
   * What the host's metadata cache guarantees: every heading line lies in the text,
   * and headings come in document order with strictly increasing lines and
   * non-overlapping spans.
   */
  predicate WellFormed(text: string, headings: seq<Heading>)
  {
    (forall i :: 0 <= i < |headings| ==>
       0 <= headings[i].startOffset <= headings[i].endOffset <= |text|) &&
    (forall i, j :: 0 <= i < j < |headings| ==>
       headings[i].startLine < headings[j].startLine && headings[i].endOffset < headings[j].startOffset)
  }

  /** Where the body of `h` ends: the start of its closing heading, or the end of the text. */
  function BodyEnd(text: string, headings: seq<Heading>, h: Heading): int
  {
    match FindIndex(headings, ClosesFn(h))
    case Some(j) => headings[j].startOffset
    case None => |text|
  }

  /**
   * On a well-formed outline the body is the plain slice between the heading
   * line and its closing heading, which comes later in the list; without a
   * closing heading it runs to the end of the text (empty when the heading
   * line is the last line and has no newline).
   */
  lemma ContentIsSpan(text: string, headings: seq<Heading>, i: nat)
    requires WellFormed(text, headings) && i < |headings|
    ensures match FindIndex(headings, ClosesFn(headings[i]))
      case Some(j) =>
        i < j &&
        headings[i].endOffset + 1 <= headings[j].startOffset &&
        SectionContent(text, headings, headings[i]) == text[headings[i].endOffset + 1..headings[j].startOffset] &&
        |SectionContent(text, headings, headings[i])| == headings[j].startOffset - (headings[i].endOffset + 1)
      case None =>
        SectionContent(text, headings, headings[i]) ==
          if headings[i].endOffset < |text| then text[headings[i].endOffset + 1..] else []
  {
    var h := headings[i];
    match FindIndex(headings, ClosesFn(h))
    case Some(j) =>
      assert Closes(h, headings[j]);
    case None =>
  }

  function AtMostLevel(level: int): Heading -> bool
  {
    (g: Heading) => g.level <= level
  }

  /**
   * Deeper headings never bound a section: dropping every heading deeper than
   * `h` from the list leaves the closing heading of `h` unchanged.
   */
  lemma {:induction false} DeeperHeadingsNeverClose(headings: seq<Heading>, h: Heading)
    ensures Find(headings, ClosesFn(h)) == Find(Filter(headings, AtMostLevel(h.level)), ClosesFn(h))
    decreases |headings|
  {
    if |headings| > 0 {
      var g, rest := headings[0], headings[1..];
      DeeperHeadingsNeverClose(rest, h);
      var shallow := Filter(headings, AtMostLevel(h.level));
      if g.level <= h.level {
        assert shallow == [g] + Filter(rest, AtMostLevel(h.level));
        assert shallow[1..] == Filter(rest, AtMostLevel(h.level));
      }
    }
  }

  /** The heading that closes `headings[i]` comes after every heading of its subtree. */
  lemma ClosedAfterSubtree(text: string, headings: seq<Heading>, i: nat, k: nat)
    requires WellFormed(text, headings) && i < k < |headings|
    requires forall m :: i < m <= k ==> headings[m].level > headings[i].level
    ensures FindIndex(headings, ClosesFn(headings[i])).Some? ==> k < FindIndex(headings, ClosesFn(headings[i])).value
  {
    var found := FindIndex(headings, ClosesFn(headings[i]));
    if found.Some? {
      var j := found.value;
      assert Closes(headings[i], headings[j]);
    }
  }

  /** A sub-heading's body ends no later than its parent's. */
  lemma BodyEndNests(text: string, headings: seq<Heading>, i: nat, k: nat)
    requires WellFormed(text, headings) && i < k < |headings|
    requires forall m :: i < m <= k ==> headings[m].level > headings[i].level
    ensures BodyEnd(text, headings, headings[k]) <= BodyEnd(text, headings, headings[i])
  {
    ClosedAfterSubtree(text, headings, i, k);
    var c := headings[k];
    var jk := FindIndex(headings, ClosesFn(c));
    match FindIndex(headings, ClosesFn(headings[i]))
    case Some(j) =>
      assert Closes(headings[i], headings[j]);
      assert ClosesFn(c)(headings[j]);
      assert jk.Some? && jk.value <= j;
      if jk.value < j {
        assert headings[jk.value].endOffset < headings[j].startOffset;
      }
    case None =>
      if jk.Some? {
        assert headings[jk.value].startOffset <= |text|;
      }
  }

  /**
   * A sub-heading deeper than `headings[i]`, with only deeper headings between
   * the two, lies inside the parent's body: its line is part of the parent's
   * content, and its own body ends no later than the parent's.
   */
  lemma SubHeadingInsideParent(text: string, headings: seq<Heading>, i: nat, k: nat)
    requires WellFormed(text, headings) && i < k < |headings|
    requires forall m :: i < m <= k ==> headings[m].level > headings[i].level
    ensures headings[i].endOffset + 1 <= headings[k].startOffset
    ensures headings[k].endOffset <= BodyEnd(text, headings, headings[i])
    ensures BodyEnd(text, headings, headings[k]) <= BodyEnd(text, headings, headings[i])
    ensures var lo := headings[i].endOffset + 1;
      SectionContent(text, headings, headings[i])[headings[k].startOffset - lo..headings[k].endOffset - lo]
        == text[headings[k].startOffset..headings[k].endOffset]
  {
    var p, c := headings[i], headings[k];
    var lo := p.endOffset + 1;
    assert lo <= c.startOffset <= c.endOffset <= |text|;
    ContentIsSpan(text, headings, i);
    ClosedAfterSubtree(text, headings, i, k);
    BodyEndNests(text, headings, i, k);
    var hi := BodyEnd(text, headings, p);
    assert c.endOffset <= hi by {
      var found := FindIndex(headings, ClosesFn(p));
      if found.Some? {
        assert headings[k].endOffset < headings[found.value].startOffset;
      }
    }
    assert hi <= |text|;
    assert SectionContent(text, headings, p) == text[lo..hi];
    SliceWithin(text, lo, hi, c.startOffset, c.endOffset);
    assert SectionContent(text, headings, p)[c.startOffset - lo..c.endOffset - lo] == text[c.startOffset..c.endOffset];
  }

  lemma SliceWithin(s: string, lo: int, hi: int, a: int, b: int)
    requires 0 <= lo <= a <= b <= hi <= |s|
    ensures s[lo..hi][a - lo..b - lo] == s[a..b]
  {
    var inner := s[lo..hi][a - lo..b - lo];
    assert |inner| == b - a;
    forall k | 0 <= k < b - a ensures inner[k] == s[a..b][k] {
      assert inner[k] == s[lo..hi][a - lo + k] == s[a + k];
    }
  }

  // ---------------------------------------------------------------------------
  // Selecting sections by heading

  /** One section per selected heading, in the order given. */
  function SectionsOf(text: string, basename: string, headings: seq<Heading>, selected: seq<Heading>, link: LinkRenderer): (r: seq<Section>)
    ensures |r| == |selected|
    ensures forall k :: 0 <= k < |r| ==> r[k] == MakeSection(text, basename, headings, selected[k], link)
  {
    if |selected| == 0 then []
    else [MakeSection(text, basename, headings, selected[0], link)] + SectionsOf(text, basename, headings, selected[1..], link)
  }

  lemma {:induction false} SectionsOfAppend(text: string, basename: string, headings: seq<Heading>,
                                            a: seq<Heading>, b: seq<Heading>, link: LinkRenderer)
    ensures SectionsOf(text, basename, headings, a + b, link)
         == SectionsOf(text, basename, headings, a, link) + SectionsOf(text, basename, headings, b, link)
    decreases |a|
  {
    if |a| == 0 {
      assert a + b == b;
    } else {
      assert (a + b)[0] == a[0] && (a + b)[1..] == a[1..] + b;
      SectionsOfAppend(text, basename, headings, a[1..], b, link);
    }
  }

  /** The sections `selectSectionsByHeading` returns: one per heading that satisfies `pred`. */
  function ByHeading(text: string, basename: string, headings: seq<Heading>, pred: Heading -> bool, link: LinkRenderer): seq<Section>
  {
    SectionsOf(text, basename, headings, Filter(headings, pred), link)
  }

  /** `selectSectionsByHeading`, with the loaded text and the cached headings as inputs. */
  method SelectSectionsByHeading(text: string, basename: string, headings: seq<Heading>, pred: Heading -> bool, link: LinkRenderer)
    returns (sections: seq<Section>)
    ensures sections == ByHeading(text, basename, headings, pred, link)
  {
    sections := [];
    for i := 0 to |headings|
      invariant ByHeading(text, basename, headings, pred, link)
        == sections + SectionsOf(text, basename, headings, Filter(headings[i..], pred), link)
    {
      var h := headings[i];
      assert headings[i..][1..] == headings[i + 1..];
      if pred(h) {
        sections := sections + [MakeSection(text, basename, headings, h, link)];
      }
    }
  }

  /**
   * Exactly one section per matching heading, in heading-list order: the k-th
   * section belongs to the k-th matching heading, every matching heading has
   * its section, and nothing is returned when no heading matches.
   */
  lemma ByHeadingOnePerMatch(text: string, basename: string, headings: seq<Heading>, pred: Heading -> bool, link: LinkRenderer)
    ensures var r := ByHeading(text, basename, headings, pred, link);
      var matching := Filter(headings, pred);
      |r| == |matching| &&
      (forall k :: 0 <= k < |r| ==>
         pred(matching[k]) && matching[k] in headings && r[k] == MakeSection(text, basename, headings, matching[k], link)) &&
      (forall h :: h in headings && pred(h) ==> MakeSection(text, basename, headings, h, link) in r) &&
      (r == [] <==> forall j :: 0 <= j < |headings| ==> !pred(headings[j]))
  {
    var r := ByHeading(text, basename, headings, pred, link);
    var matching := Filter(headings, pred);
    forall k | 0 <= k < |r|
      ensures matching[k] in headings
    {
      FilterMembership(headings, pred, matching[k]);
    }
    forall h | h in headings && pred(h)
      ensures MakeSection(text, basename, headings, h, link) in r
    {
      FilterMembership(headings, pred, h);
      var k :| 0 <= k < |matching| && matching[k] == h;
      assert r[k] == MakeSection(text, basename, headings, h, link);
    }
    FilterEmpty(headings, pred);
  }

  /**
   * Order is preserved: splitting the heading list anywhere, the sections of
   * the earlier part come first; headings that do not match add nothing.
   */
  lemma ByHeadingSplit(text: string, basename: string, headings: seq<Heading>, a: seq<Heading>, b: seq<Heading>,
                       pred: Heading -> bool, link: LinkRenderer)
    requires headings == a + b
    ensures ByHeading(text, basename, headings, pred, link)
      == SectionsOf(text, basename, headings, Filter(a, pred), link) + SectionsOf(text, basename, headings, Filter(b, pred), link)
  {
    FilterAppend(a, b, pred);
    SectionsOfAppend(text, basename, headings, Filter(a, pred), Filter(b, pred), link);
  }

  // ---------------------------------------------------------------------------
  // Selecting sections by tag

  /** A heading starts on `line`. */
  predicate Attributed(headings: seq<Heading>, line: int)
  {
    exists k :: 0 <= k < |headings| && headings[k].startLine == line
  }

  function NameMatches(pred: string -> bool): Tag -> bool
  {
    (t: Tag) => pred(t.name)
  }

  /**
   * The owning headings of the tags whose names satisfy `pred`, in tag order:
   * for each, the first heading starting on the tag's line. Resolution fails
   * at the first such tag whose line starts no heading.
   */
  function Owners(headings: seq<Heading>, tags: seq<Tag>, pred: string -> bool): Result<seq<Heading>>
    decreases |tags|
  {
    if |tags| == 0 then Success([])
    else
      var t := tags[0];
      if !pred(t.name) then Owners(headings, tags[1..], pred)
      else match Find(headings, StartsOnLine(t.startLine))
        case None => Failure(NoHeadingOnLine(t.startLine))
        case Some(owner) =>
          match Owners(headings, tags[1..], pred)
          case Failure(e) => Failure(e)
          case Success(rest) => Success([owner] + rest)
  }

  /**
   * What `selectSectionsByTag` returns: one section per tag whose name
   * satisfies `pred`, for the heading that owns it; or the failure of the
   * first such tag without an owner, in which case no section is returned.
   */
  function ByTag(text: string, basename: string, headings: seq<Heading>, tags: seq<Tag>,
                 pred: string -> bool, link: LinkRenderer): Result<seq<Section>>
  {
    match Owners(headings, tags, pred)
    case Failure(e) => Failure(e)
    case Success(owners) => Success(SectionsOf(text, basename, headings, owners, link))
  }

  /** `done` followed by the outcome of the rest of the scan. */
  function Prepend<T>(done: seq<T>, r: Result<seq<T>>): Result<seq<T>>
  {
    match r
    case Failure(e) => Failure(e)
    case Success(rest) => Success(done + rest)
  }

  /** `selectSectionsByTag`, with the loaded text and the cached headings and tags as inputs. */
  method SelectSectionsByTag(text: string, basename: string, headings: seq<Heading>, tags: seq<Tag>,
                             pred: string -> bool, link: LinkRenderer)
    returns (r: Result<seq<Section>>)
    ensures r == ByTag(text, basename, headings, tags, pred, link)
  {
    var sections: seq<Section> := [];
    ghost var owners: seq<Heading> := [];
    assert tags[0..] == tags;
    PrependNothing(Owners(headings, tags, pred));
    for i := 0 to |tags|
      invariant Owners(headings, tags, pred) == Prepend(owners, Owners(headings, tags[i..], pred))
      invariant sections == SectionsOf(text, basename, headings, owners, link)
    {
      var t := tags[i];
      OwnersStep(headings, tags, pred, i);
      if pred(t.name) {
        var owner := Find(headings, StartsOnLine(t.startLine));
        if owner.None? {
          return Failure(NoHeadingOnLine(t.startLine));
        }
        PrependTwice(owners, [owner.value], Owners(headings, tags[i + 1..], pred));
        SectionsOfAppend(text, basename, headings, owners, [owner.value], link);
        owners := owners + [owner.value];
        sections := sections + [MakeSection(text, basename, headings, owner.value, link)];
      }
    }
    assert tags[|tags|..] == [];
    assert owners + [] == owners;
    r := Success(sections);
  }

  lemma PrependNothing<T>(r: Result<seq<T>>)
    ensures Prepend([], r) == r
  {
    match r {
      case Failure(_) =>
      case Success(all) => assert [] + all == all;
    }
  }

  lemma PrependTwice<T>(a: seq<T>, b: seq<T>, r: Result<seq<T>>)
    ensures Prepend(a, Prepend(b, r)) == Prepend(a + b, r)
  {
    match r {
      case Failure(_) =>
      case Success(rest) => assert a + (b + rest) == (a + b) + rest;
    }
  }

  /** One step of the scan: the owners from tag `i` on, in terms of those from tag `i + 1` on. */
  lemma OwnersStep(headings: seq<Heading>, tags: seq<Tag>, pred: string -> bool, i: nat)
    requires i < |tags|
    ensures Owners(headings, tags[i..], pred) ==
      if !pred(tags[i].name) then Owners(headings, tags[i + 1..], pred)
      else match Find(headings, StartsOnLine(tags[i].startLine))
        case None => Failure(NoHeadingOnLine(tags[i].startLine))
        case Some(owner) => Prepend([owner], Owners(headings, tags[i + 1..], pred))
  {
    assert tags[i..][0] == tags[i];
    assert tags[i..][1..] == tags[i + 1..];
  }

  /** The heading that owns a tag on `line`: the first heading starting on that line. */
  function OwnerOf(headings: seq<Heading>, line: int): (r: Heading)
    requires Attributed(headings, line)
    ensures r.startLine == line
    ensures exists i ::
              0 <= i < |headings| && r == headings[i] && forall j :: 0 <= j < i ==> headings[j].startLine != line
  {
    var i := FindIndex(headings, StartsOnLine(line));
    assert i.Some? by {
      var k :| 0 <= k < |headings| && headings[k].startLine == line;
      assert StartsOnLine(line)(headings[k]);
    }
    assert forall j :: 0 <= j < i.value ==> !StartsOnLine(line)(headings[j]);
    headings[i.value]
  }

  /** The owner search finds a heading exactly when some heading starts on the line. */
  lemma OwnerFound(headings: seq<Heading>, line: int)
    ensures FindIndex(headings, StartsOnLine(line)).Some? <==> Attributed(headings, line)
    ensures Attributed(headings, line) ==>
      Find(headings, StartsOnLine(line)) == Some(OwnerOf(headings, line))
  {
    if Attributed(headings, line) {
      var k :| 0 <= k < |headings| && headings[k].startLine == line;
      assert StartsOnLine(line)(headings[k]);
    }
  }

  /**
   * Extraction by tag succeeds exactly when every selected tag sits on a
   * heading's start line.
   */
  lemma {:induction false} ByTagSucceedsIff(text: string, basename: string, headings: seq<Heading>, tags: seq<Tag>,
                                            pred: string -> bool, link: LinkRenderer)
    ensures ByTag(text, basename, headings, tags, pred, link).Success?
        <==> forall j :: 0 <= j < |tags| && pred(tags[j].name) ==> Attributed(headings, tags[j].startLine)
    decreases |tags|
  {
    if |tags| > 0 {
      var t, rest := tags[0], tags[1..];
      ByTagSucceedsIff(text, basename, headings, rest, pred, link);
      assert forall j :: 1 <= j < |tags| ==> tags[j] == rest[j - 1];
      OwnerFound(headings, t.startLine);
    }
  }

  /** Resolved owners line up with the selected tags, each the owner of its tag's line. */
  lemma {:induction false} OwnersResolved(headings: seq<Heading>, tags: seq<Tag>, pred: string -> bool)
    requires Owners(headings, tags, pred).Success?
    ensures var owners := Owners(headings, tags, pred).value;
      var selected := Filter(tags, NameMatches(pred));
      |owners| == |selected| &&
      forall k :: 0 <= k < |owners| ==>
        Attributed(headings, selected[k].startLine) && owners[k] == OwnerOf(headings, selected[k].startLine)
    decreases |tags|
  {
    if |tags| > 0 {
      var t, rest := tags[0], tags[1..];
      OwnersResolved(headings, rest, pred);
      var selectedRest := Filter(rest, NameMatches(pred));
      var done := Owners(headings, rest, pred).value;
      if pred(t.name) {
        OwnerFound(headings, t.startLine);
        var owners := Owners(headings, tags, pred).value;
        assert owners == [OwnerOf(headings, t.startLine)] + done;
        assert NameMatches(pred)(t);
        var selected := Filter(tags, NameMatches(pred));
        assert selected == [t] + selectedRest;
        forall k | 0 <= k < |owners|
          ensures Attributed(headings, selected[k].startLine)
          ensures owners[k] == OwnerOf(headings, selected[k].startLine)
        {
          if k > 0 {
            assert owners[k] == done[k - 1] && selected[k] == selectedRest[k - 1];
          }
        }
      } else {
        assert !NameMatches(pred)(t);
      }
    }
  }

  /**
   * A successful extraction by tag yields one section per selected tag, in
   * tag order, each for the heading that owns the tag.
   */
  lemma ByTagSections(text: string, basename: string, headings: seq<Heading>, tags: seq<Tag>,
                      pred: string -> bool, link: LinkRenderer)
    requires ByTag(text, basename, headings, tags, pred, link).Success?
    ensures var r := ByTag(text, basename, headings, tags, pred, link).value;
      var selected := Filter(tags, NameMatches(pred));
      |r| == |selected| &&
      forall k :: 0 <= k < |r| ==>
        Attributed(headings, selected[k].startLine) &&
        r[k] == MakeSection(text, basename, headings, OwnerOf(headings, selected[k].startLine), link)
  {
    OwnersResolved(headings, tags, pred);
  }

  /**
   * The first selected tag without an owning heading decides the failure:
   * the error names that tag's line.
   */
  lemma {:induction false} ByTagFailsAtFirstOrphan(text: string, basename: string, headings: seq<Heading>, tags: seq<Tag>,
                                                   pred: string -> bool, link: LinkRenderer, j: nat)
    requires j < |tags| && pred(tags[j].name) && !Attributed(headings, tags[j].startLine)
    requires forall i :: 0 <= i < j && pred(tags[i].name) ==> Attributed(headings, tags[i].startLine)
    ensures ByTag(text, basename, headings, tags, pred, link) == Failure(NoHeadingOnLine(tags[j].startLine))
    decreases j
  {
    var t := tags[0];
    OwnerFound(headings, t.startLine);
    if j > 0 {
      assert forall i :: 0 <= i < j - 1 ==> tags[1..][i] == tags[i + 1];
      ByTagFailsAtFirstOrphan(text, basename, headings, tags[1..], pred, link, j - 1);
    }
  }

  /**
   * No deduplication: two selected tags on the same line give two equal
   * sections, at their own positions in the result.
   */
  lemma SameLineTagsGiveEqualSections(text: string, basename: string, headings: seq<Heading>, tags: seq<Tag>,
                                      pred: string -> bool, link: LinkRenderer, k1: nat, k2: nat)
    requires ByTag(text, basename, headings, tags, pred, link).Success?
    requires k1 < k2 < |Filter(tags, NameMatches(pred))|
    requires Filter(tags, NameMatches(pred))[k1].startLine == Filter(tags, NameMatches(pred))[k2].startLine
    ensures var r := ByTag(text, basename, headings, tags, pred, link).value;
      k2 < |r| && r[k1] == r[k2]
  {
    ByTagSections(text, basename, headings, tags, pred, link);
  }

  /** Tags whose names fail the predicate play no part: neither in the sections nor in the failure. */
  lemma {:induction false} ByTagIgnoresUnselected(text: string, basename: string, headings: seq<Heading>, tags: seq<Tag>,
                                                  pred: string -> bool, link: LinkRenderer)
    ensures ByTag(text, basename, headings, tags, pred, link)
         == ByTag(text, basename, headings, Filter(tags, NameMatches(pred)), pred, link)
  {
    OwnersIgnoreUnselected(headings, tags, pred);
  }

  lemma {:induction false} OwnersIgnoreUnselected(headings: seq<Heading>, tags: seq<Tag>, pred: string -> bool)
    ensures Owners(headings, tags, pred) == Owners(headings, Filter(tags, NameMatches(pred)), pred)
    decreases |tags|
  {
    if |tags| > 0 {
      var t, rest := tags[0], tags[1..];
      OwnersIgnoreUnselected(headings, rest, pred);
      if pred(t.name) {
        var selected := Filter(tags, NameMatches(pred));
        assert selected == [t] + Filter(rest, NameMatches(pred));
        assert selected[0] == t && selected[1..] == Filter(rest, NameMatches(pred));
      }
    }
  }

  // ---------------------------------------------------------------------------
  // The two convenience selectors

  function NameIs(name: string): string -> bool
  {
    (n: string) => n == name
  }

  function LevelIs(level: int): Heading -> bool
  {
    (h: Heading) => h.level == level
  }

  /** `selectSectionsByTagName`: extraction by tag with the predicate "name equals `name`". */
  method SelectSectionsByTagName(text: string, basename: string, headings: seq<Heading>, tags: seq<Tag>,
                                 name: string, link: LinkRenderer)
    returns (r: Result<seq<Section>>)
    ensures r == ByTag(text, basename, headings, tags, NameIs(name), link)
  {
    r := SelectSectionsByTag(text, basename, headings, tags, NameIs(name), link);
  }

  /** `selectSectionsByHeadingLevel`: extraction by heading with the predicate "level equals `level`". */
  method SelectSectionsByHeadingLevel(text: string, basename: string, headings: seq<Heading>, level: int,
                                      link: LinkRenderer)
    returns (sections: seq<Section>)
    ensures sections == ByHeading(text, basename, headings, LevelIs(level), link)
  {
    sections := SelectSectionsByHeading(text, basename, headings, LevelIs(level), link);
  }

  /**
   * Selecting by a positive level yields one section per heading of that
   * level, and each rendered heading reads back as that level.
   */
  lemma ByHeadingLevelRendersLevel(text: string, basename: string, headings: seq<Heading>, level: int, link: LinkRenderer)
    requires level > 0
    ensures var r := ByHeading(text, basename, headings, LevelIs(level), link);
      |r| == |Filter(headings, LevelIs(level))| &&
      forall k :: 0 <= k < |r| ==> ParseHeading(r[k].heading).0 == level
  {
    var r := ByHeading(text, basename, headings, LevelIs(level), link);
    var matching := Filter(headings, LevelIs(level));
    forall k | 0 <= k < |r| ensures ParseHeading(r[k].heading).0 == level {
      assert LevelIs(level)(matching[k]);
      NewHeadingParses(matching[k].text, level);
    }
  }

  /** Selecting by tag name yields sections only for tags carrying exactly that name. */
  lemma ByTagNameSelectsName(text: string, basename: string, headings: seq<Heading>, tags: seq<Tag>,
                             name: string, link: LinkRenderer)
    requires ByTag(text, basename, headings, tags, NameIs(name), link).Success?
    ensures var r := ByTag(text, basename, headings, tags, NameIs(name), link).value;
      var selected := Filter(tags, NameMatches(NameIs(name)));
      |r| == |selected| && forall k :: 0 <= k < |r| ==> selected[k].name == name
  {
    ByTagSections(text, basename, headings, tags, NameIs(name), link);
    var selected := Filter(tags, NameMatches(NameIs(name)));
    forall k | 0 <= k < |selected| ensures selected[k].name == name {
      assert NameMatches(NameIs(name))(selected[k]);
    }
  }
}
