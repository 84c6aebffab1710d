/** How many sections and subsections a file has, how they are headed and how many variables each holds, read off the
    tokens in one scan. */
module LessDocOutline {
  import opened LessDoc

  /** A subsection's heading and the number of its variables. */
  type Mark = (string, nat)

  /** Up to the next section heading: the number of variables before the first subsection heading, and what the
      subsection headings and the variables after each of them are. */
  function Marks(ts: seq<Token>): (nat, seq<Mark>) {
    if AtSection(ts) then (0, [])
    else
      var (n, marks) := Marks(ts[1..]);
      match ts[0]
      case SubHeading(heading) => (0, [(heading, n)] + marks)
      case Assignment(_, _) => (n + 1, marks)
      case _ => (n, marks)
  }

  /** The subsections of a section whose tokens, after its heading and docstring, these are: one for every subsection
      heading, and before them one without a heading unless the section starts with a subsection heading. A lone one
      without a heading and without variables is none. */
  function SectionMarks(ts: seq<Token>): seq<Mark> {
    var (n, marks) := Marks(ts);
    var all := if StartsSub(ts) then marks else [("", n)] + marks;
    if all == [("", 0)] then [] else all
  }

  /** The same for every section heading of the file. */
  function FileMarks(ts: seq<Token>): seq<seq<Mark>> {
    if ts == [] then []
    else (if ts[0].SectionHeading? then [SectionMarks(AfterDoc(ts[1..]))] else []) + FileMarks(ts[1..])
  }

  function MarksOf(subs: seq<SubSection>): (m: seq<Mark>)
    ensures |m| == |subs|
  {
    seq(|subs|, i requires 0 <= i < |subs| => (subs[i].heading, |subs[i].variables|))
  }

  function TreeMarks(sections: seq<Section>): (m: seq<seq<Mark>>)
    ensures |m| == |sections|
  {
    seq(|sections|, i requires 0 <= i < |sections| => MarksOf(sections[i].subsections))
  }

  // ---------------------------------------------------------------- one section

  lemma {:induction false} VarsAreMarked(ts: seq<Token>)
    ensures var (vs, rest) := Vars(ts);
      Marks(ts) == (|vs| + Marks(rest).0, Marks(rest).1) && FileMarks(ts) == FileMarks(rest)
    decreases |ts|
  {
    var (v, rest) := OneVar(ts);
    if v.Some? {
      VarsAreMarked(rest);
    }
  }

  lemma MarksOfMore(sub: SubSection, subs: seq<SubSection>)
    ensures MarksOf([sub] + subs) == [(sub.heading, |sub.variables|)] + MarksOf(subs)
  {
  }

  lemma {:induction false} SubSectionsAreMarked(ts: seq<Token>)
    requires AtSection(SubSections(ts).1)
    ensures Marks(ts) == (0, MarksOf(SubSections(ts).0)) && FileMarks(ts) == FileMarks(SubSections(ts).1)
    decreases |ts|
  {
    if StartsSub(ts) {
      var (vs, rest) := Vars(ts[1..]);
      VarsAreMarked(ts[1..]);
      SubSectionsAreMarked(rest);
      MarksOfMore(SubSection(ts[0].heading, vs), SubSections(rest).0);
      hide Vars, MarksOf;
    }
  }

  lemma BodyIsMarked(ts: seq<Token>)
    requires AtSection(Body(ts).1)
    ensures MarksOf(Pruned(Body(ts).0)) == SectionMarks(ts) && FileMarks(ts) == FileMarks(Body(ts).1)
  {
    if StartsSub(ts) {
      SubSectionsAreMarked(ts);
    } else {
      var (vs, rest) := Vars(ts);
      VarsAreMarked(ts);
      SubSectionsAreMarked(rest);
      MarksOfMore(SubSection("", vs), SubSections(rest).0);
    }
    PrunedMarks(Body(ts).0);
    hide Marks, Vars, SubSections, MarksOf, Pruned;
  }

  lemma PrunedMarks(subs: seq<SubSection>)
    ensures MarksOf(Pruned(subs)) == if MarksOf(subs) == [("", 0)] then [] else MarksOf(subs)
  {
    if MarksOf(subs) == [("", 0)] {
      assert MarksOf(subs)[0] == ("", 0);
    }
  }

  // ---------------------------------------------------------------- a whole file

  lemma OneSectionIsMarked(ts: seq<Token>)
    requires ts != [] && ts[0].SectionHeading? && AtSection(OneSection(ts).1)
    ensures FileMarks(ts) == [MarksOf(OneSection(ts).0.subsections)] + FileMarks(OneSection(ts).1)
  {
    var body := AfterDoc(ts[1..]);
    BodyIsMarked(body);
    hide Body, Pruned, MarksOf, SectionMarks;
    assert FileMarks(ts[1..]) == FileMarks(body);
  }

  lemma MarksOfSections(section: Section, sections: seq<Section>)
    ensures TreeMarks([section] + sections) == [MarksOf(section.subsections)] + TreeMarks(sections)
  {
    hide MarksOf;
  }

  /** The tree of an accepted file has exactly the sections and subsections that the scan finds, in that order, with
      these headings and these numbers of variables. */
  lemma {:induction false} OutlineExactly(ts: seq<Token>)
    requires File(ts).Parsed?
    ensures TreeMarks(File(ts).value) == FileMarks(ts)
    decreases |ts|
  {
    if ts != [] {
      var (section, rest) := OneSection(ts);
      assert AtSection(rest) && File(ts).value == [section] + File(rest).value by { hide OneSection; }
      hide File, OneSection, MarksOf, TreeMarks, FileMarks;
      OneSectionIsMarked(ts);
      OutlineExactly(rest);
      MarksOfSections(section, File(rest).value);
    }
  }
}
