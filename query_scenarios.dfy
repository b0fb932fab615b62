// Concrete runs of the section extractor on a small note, computed by the
// verifier from the definitions in module Query.

module QueryScenarios {
  import opened JsArray
  import opened Query

  /** "# A", "foo", "## B", "bar", "# C", "baz", joined by newlines, no trailing newline. */
  const Note: string := "# A\nfoo\n## B\nbar\n# C\nbaz"

  const A: Heading := Heading("A", 1, 0, 0, 3)
  const B: Heading := Heading("B", 2, 2, 8, 12)
  const C: Heading := Heading("C", 1, 4, 17, 20)
  const Outline: seq<Heading> := [A, B, C]

  lemma OutlineIsWellFormed()
    ensures WellFormed(Note, Outline)
  {
  }

  /** Rendering: level 2 gets two markers and a space, level 0 stays bare. */
  lemma RenderExamples()
    ensures NewHeading("Intro", 2) == "## Intro"
    ensures NewHeading("Intro", 0) == "Intro"
  {
    assert Repeat2: JsString.Repeat('#', 2) == "##" by {
      assert JsString.Repeat('#', 1) == "#";
    }
  }

  /** B closes nothing at level 1; C closes A; nothing closes C. */
  lemma Boundaries()
    ensures Find(Outline, ClosesFn(A)) == Some(C)
    ensures Find(Outline, ClosesFn(B)) == Some(C)
    ensures Find(Outline, ClosesFn(C)) == None
  {
    assert Outline[1..] == [B, C] && [B, C][1..] == [C] && [C][1..] == [];
    assert !ClosesFn(A)(A) && !ClosesFn(A)(B) && ClosesFn(A)(C);
    assert FindIndex([C], ClosesFn(A)) == Some(0);
    assert FindIndex([B, C], ClosesFn(A)) == Some(1);
    assert FindIndex(Outline, ClosesFn(A)) == Some(2);
    assert !ClosesFn(B)(A) && !ClosesFn(B)(B) && ClosesFn(B)(C);
    assert FindIndex([C], ClosesFn(B)) == Some(0);
    assert FindIndex([B, C], ClosesFn(B)) == Some(1);
    assert FindIndex(Outline, ClosesFn(B)) == Some(2);
    assert !ClosesFn(C)(A) && !ClosesFn(C)(B) && !ClosesFn(C)(C);
    assert FindIndex([], ClosesFn(C)) == None;
    assert FindIndex([C], ClosesFn(C)) == None;
    assert FindIndex([B, C], ClosesFn(C)) == None;
  }

  /** The three body spans of the note, by offset. */
  lemma NoteSpans()
    ensures |Note| == 24
    ensures Note[4..17] == "foo\n## B\nbar\n"
    ensures Note[13..17] == "bar\n"
    ensures Note[21..] == "baz"
  {
  }

  /** A's body runs from offset 4 up to C's line at offset 17, taking in B. */
  lemma ContentOfA()
    ensures SectionContent(Note, Outline, A) == "foo\n## B\nbar\n"
  {
    assert SectionContent(Note, Outline, A) == JsString.Substring(Note, 4, 17) by {
      Boundaries();
    }
    NoteSpans();
  }

  /** B's body runs from offset 13 up to C's line at offset 17. */
  lemma ContentOfB()
    ensures SectionContent(Note, Outline, B) == "bar\n"
  {
    assert SectionContent(Note, Outline, B) == JsString.Substring(Note, 13, 17) by {
      Boundaries();
    }
    NoteSpans();
  }

  /** C's body runs from offset 21 to the end of the note. */
  lemma ContentOfC()
    ensures SectionContent(Note, Outline, C) == "baz"
  {
    assert SectionContent(Note, Outline, C) == JsString.SubstringFrom(Note, 21) by {
      Boundaries();
    }
    NoteSpans();
  }

  /** Level-1 extraction: A's body holds the deeper B; C's body runs to the end. */
  lemma ByLevelOne(link: LinkRenderer)
    ensures ByHeading(Note, "note", Outline, LevelIs(1), link) ==
      [Section("# A", link("note", "A"), "foo\n## B\nbar\n"),
       Section("# C", link("note", "C"), "baz")]
  {
    ContentOfA();
    ContentOfC();
    assert Outline[1..] == [B, C] && [B, C][1..] == [C] && [C][1..] == [];
    assert LevelIs(1)(A) && !LevelIs(1)(B) && LevelIs(1)(C);
    assert Filter([C], LevelIs(1)) == [C];
    assert Filter([B, C], LevelIs(1)) == [C];
    assert Filter(Outline, LevelIs(1)) == [A, C];
    assert [A, C][1..] == [C];
    assert NewHeading("A", 1) == "# A" && NewHeading("C", 1) == "# C";
  }

  /** The owner of a tag on line 2 is B. */
  lemma OwnerOfLineTwo()
    ensures Find(Outline, StartsOnLine(2)) == Some(B)
  {
    assert !StartsOnLine(2)(A) && StartsOnLine(2)(B);
    assert Outline[1..] == [B, C];
    assert FindIndex([B, C], StartsOnLine(2)) == Some(0);
    assert FindIndex(Outline, StartsOnLine(2)) == Some(1);
  }

  lemma SectionOfB(link: LinkRenderer)
    ensures MakeSection(Note, "note", Outline, B, link) == Section("## B", link("note", "B"), "bar\n")
  {
    ContentOfB();
    assert NewHeading("B", 2) == "## B" by {
      assert JsString.Repeat('#', 1) == "#";
    }
  }

  /** A tag on B's line selects B alone, whose body stops at C. */
  lemma TagOnHeadingLine(link: LinkRenderer)
    ensures ByTag(Note, "note", Outline, [Tag("#x", 2)], NameIs("#x"), link) ==
      Success([Section("## B", link("note", "B"), "bar\n")])
  {
    var tags := [Tag("#x", 2)];
    OwnerOfLineTwo();
    SectionOfB(link);
    assert tags[0].name == "#x" && NameIs("#x")(tags[0].name);
    assert tags[1..] == [];
    assert ByTag(Note, "note", Outline, tags[1..], NameIs("#x"), link) == Success([]);
    assert ByTag(Note, "note", Outline, tags, NameIs("#x"), link)
        == Success([MakeSection(Note, "note", Outline, B, link)] + []);
    assert [MakeSection(Note, "note", Outline, B, link)] + [] == [Section("## B", link("note", "B"), "bar\n")];
  }

  /** Two matching tags on one heading's line give two identical sections. */
  lemma TwoTagsOneHeading(link: LinkRenderer)
    ensures ByTag(Note, "note", Outline, [Tag("#x", 2), Tag("#x", 2)], NameIs("#x"), link) ==
      Success([Section("## B", link("note", "B"), "bar\n"), Section("## B", link("note", "B"), "bar\n")])
  {
    var tags := [Tag("#x", 2), Tag("#x", 2)];
    TagOnHeadingLine(link);
    OwnerOfLineTwo();
    SectionOfB(link);
    assert tags[0].name == "#x" && NameIs("#x")(tags[0].name);
    assert tags[1..] == [Tag("#x", 2)];
    var one := [Section("## B", link("note", "B"), "bar\n")];
    assert ByTag(Note, "note", Outline, tags, NameIs("#x"), link)
        == Success([MakeSection(Note, "note", Outline, B, link)] + one);
    assert [MakeSection(Note, "note", Outline, B, link)] + one == one + one;
    assert one + one == [one[0], one[0]];
  }

  /** A matching tag on line 1, where no heading starts, makes the whole call fail. */
  lemma TagOffHeadingLine(link: LinkRenderer)
    ensures ByTag(Note, "note", Outline, [Tag("#x", 2), Tag("#x", 1)], NameIs("#x"), link) ==
      Failure(NoHeadingOnLine(1))
  {
    OwnerFound(Outline, 1);
    OwnerFound(Outline, 2);
    var tags := [Tag("#x", 2), Tag("#x", 1)];
    assert tags[1..] == [Tag("#x", 1)] && [Tag("#x", 1)][1..] == [];
    assert !Attributed(Outline, 1);
    assert Attributed(Outline, 2) by {
      assert Outline[1].startLine == 2;
    }
  }

  /** A last heading line without a newline: one past its end is beyond the text, so the body is empty. */
  lemma LastLineHeading(link: LinkRenderer)
    ensures ByHeading("# A", "note", [A], LevelIs(1), link) == [Section("# A", link("note", "A"), "")]
  {
    assert !ClosesFn(A)(A) && [A][1..] == [];
    assert FindIndex([A], ClosesFn(A)) == None;
    assert Find([A], ClosesFn(A)) == None;
    assert NewHeading("A", 1) == "# A";
    assert LevelIs(1)(A);
    assert Filter([A], LevelIs(1)) == [A];
    assert SectionContent("# A", [A], A) == "";
  }
}
