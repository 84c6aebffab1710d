/** Writing a tree back as tokens: what the parser keeps, and that it reads every tree back. */
module LessDocRoundTrip {
  import opened Messages
  import opened LessDoc
  import opened LessDocLanguage

  function FlattenVar(v: Variable): seq<Token> {
    (if v.doc.Some? then [VarDoc(v.doc.value)] else []) + [Assignment(v.name, v.value)]
  }

  function FlattenVars(vs: seq<Variable>): seq<Token> {
    if vs == [] then []
    else FlattenVar(vs[0]) + FlattenVars(vs[1..])
  }

  /** A subsection without a heading has no heading line. */
  function FlattenHeading(sub: SubSection): seq<Token> {
    if sub.heading == "" then [] else [SubHeading(sub.heading)]
  }

  function FlattenSubs(subs: seq<SubSection>): seq<Token> {
    if subs == [] then []
    else FlattenHeading(subs[0]) + FlattenVars(subs[0].variables) + FlattenSubs(subs[1..])
  }

  function FlattenHead(s: Section): seq<Token> {
    [SectionHeading(s.heading, s.customizable)] + if s.doc.Some? then [SectionDoc(s.doc.value)] else []
  }

  function Flatten(sections: seq<Section>): seq<Token> {
    if sections == [] then []
    else FlattenHead(sections[0]) + FlattenSubs(sections[0].subsections) + Flatten(sections[1..])
  }

  /** A variable docstring with no variable after it. */
  predicate Dangling(ts: seq<Token>) {
    StartsDoc(ts) && !StartsVar(ts[1..])
  }

  predicate EmptyHeading(ts: seq<Token>) {
    StartsSub(ts) && ts[0].heading == ""
  }

  /** No token is one that the tree does not show. */
  predicate Faithful(ts: seq<Token>) {
    forall i :: 0 <= i < |ts| ==> !Dangling(ts[i..]) && !EmptyHeading(ts[i..])
  }

  /** The tokens without dangling docstrings and without empty subsection headings. */
  function Kept(ts: seq<Token>): seq<Token> {
    if ts == [] then []
    else if Dangling(ts) || EmptyHeading(ts) then Kept(ts[1..])
    else [ts[0]] + Kept(ts[1..])
  }

  /** Nothing is lost at all exactly when there is no such token. */
  lemma {:induction false} KeptAll(ts: seq<Token>)
    ensures |Kept(ts)| <= |ts|
    ensures Kept(ts) == ts <==> Faithful(ts)
  {
    if ts != [] {
      var tail := ts[1..];
      KeptAll(tail);
      assert ts == [ts[0]] + tail;
      assert ts[0..] == ts;
      assert forall i :: 0 <= i < |tail| ==> tail[i..] == ts[i + 1..];
      assert forall i :: 1 <= i < |ts| ==> ts[i..] == tail[i - 1..];
      if Dangling(ts) || EmptyHeading(ts) {
        assert |Kept(ts)| < |ts|;
        assert !(!Dangling(ts[0..]) && !EmptyHeading(ts[0..]));
      } else {
        assert Kept(ts) == [ts[0]] + Kept(tail);
        assert Kept(ts)[1..] == Kept(tail);
      }
    }
  }

  lemma {:induction false} VarsKeep(ts: seq<Token>)
    ensures Kept(ts) == FlattenVars(Vars(ts).0) + Kept(Vars(ts).1)
    decreases |ts|
  {
    var (v, rest) := OneVar(ts);
    if v.Some? {
      VarsKeep(rest);
      var vs := Vars(ts).0;
      assert vs[1..] == Vars(rest).0;
    }
  }

  lemma FlattenFirst(sub: SubSection, subs: seq<SubSection>)
    ensures FlattenSubs([sub] + subs) == FlattenHeading(sub) + FlattenVars(sub.variables) + FlattenSubs(subs)
  {
    assert ([sub] + subs)[1..] == subs;
  }

  /** A subsection heading is kept unless it is empty, which the tree shows in the same way. */
  lemma HeadingKept(ts: seq<Token>, vs: seq<Variable>)
    requires StartsSub(ts)
    ensures Kept(ts) == FlattenHeading(SubSection(ts[0].heading, vs)) + Kept(ts[1..])
  {
    assert !Dangling(ts);
  }

  lemma SubSectionsFrom(ts: seq<Token>)
    ensures !StartsSub(ts) ==> SubSections(ts) == ([], ts)
    ensures StartsSub(ts) ==>
      var (vs, rest) := Vars(ts[1..]);
      SubSections(ts) == ([SubSection(ts[0].heading, vs)] + SubSections(rest).0, SubSections(rest).1)
  {
    hide Vars;
  }

  lemma {:induction false} SubSectionsKeep(ts: seq<Token>)
    ensures Kept(ts) == FlattenSubs(SubSections(ts).0) + Kept(SubSections(ts).1)
    decreases |ts|
  {
    SubSectionsFrom(ts);
    if StartsSub(ts) {
      var (vs, rest) := Vars(ts[1..]);
      hide *;
      VarsKeep(ts[1..]);
      SubSectionsKeep(rest);
      HeadingKept(ts, vs);
      FlattenFirst(SubSection(ts[0].heading, vs), SubSections(rest).0);
    }
  }

  lemma PrunedKeeps(subs: seq<SubSection>)
    ensures FlattenSubs(Pruned(subs)) == FlattenSubs(subs)
  {
    if Pruned(subs) != subs {
      assert FlattenSubs(subs[1..]) == [];
    }
  }

  lemma BodyKeeps(ts: seq<Token>)
    ensures Kept(ts) == FlattenSubs(Pruned(Body(ts).0)) + Kept(Body(ts).1)
  {
    PrunedKeeps(Body(ts).0);
    hide Pruned, Kept;
    if StartsSub(ts) {
      SubSectionsKeep(ts);
    } else {
      var (vs, rest) := Vars(ts);
      VarsKeep(ts);
      SubSectionsKeep(rest);
      FlattenFirst(SubSection("", vs), SubSections(rest).0);
      hide Vars, FlattenVars, FlattenSubs, SubSections;
    }
  }

  lemma HeadKeeps(ts: seq<Token>)
    requires ts != [] && ts[0].SectionHeading?
    ensures Kept(ts) == FlattenHead(OneSection(ts).0) + Kept(AfterDoc(ts[1..]))
  {
    hide Body, Pruned;
    assert Kept(ts) == [ts[0]] + Kept(ts[1..]);
    if StartsSectionDoc(ts[1..]) {
      assert Kept(ts[1..]) == [ts[1]] + Kept(ts[1..][1..]);
    }
  }

  lemma OneSectionKeeps(ts: seq<Token>)
    requires ts != [] && ts[0].SectionHeading?
    ensures var (section, rest) := OneSection(ts);
      Kept(ts) == FlattenHead(section) + FlattenSubs(section.subsections) + Kept(rest)
  {
    HeadKeeps(ts);
    BodyKeeps(AfterDoc(ts[1..]));
    hide Kept, Body, Pruned, FlattenHead, FlattenSubs;
  }

  /** The tree of an accepted file holds every token of the file in order, except dangling variable docstrings and
      empty subsection headings. */
  lemma {:induction false} Lossless(ts: seq<Token>)
    requires File(ts).Parsed?
    ensures Flatten(File(ts).value) == Kept(ts)
    decreases |ts|
  {
    if ts != [] {
      var rest := OneSection(ts).1;
      OneSectionKeeps(ts);
      hide OneSection, FlattenHead, FlattenSubs, Kept;
      Lossless(rest);
      var sections := File(ts).value;
      assert sections[1..] == File(rest).value;
    }
  }

  /** So an accepted file comes back unchanged exactly when it has neither. */
  lemma LosslessExactly(ts: seq<Token>)
    requires File(ts).Parsed?
    ensures Flatten(File(ts).value) == ts <==> Faithful(ts)
  {
    Lossless(ts);
    KeptAll(ts);
  }

  // ---------------------------------------------------------------- from trees to tokens and back

  /** Only the first subsection may lack a heading, and then it has variables. */
  predicate NormalSubs(subs: seq<SubSection>) {
    forall i :: 0 <= i < |subs| ==> subs[i].heading == "" ==> i == 0 && subs[0].variables != []
  }

  predicate Normal(sections: seq<Section>) {
    forall i :: 0 <= i < |sections| ==> NormalSubs(sections[i].subsections)
  }

  lemma OneVarReadBack(v: Variable, rest: seq<Token>)
    ensures OneVar(FlattenVar(v) + rest) == (Some(v), rest)
  {
    var ts := FlattenVar(v) + rest;
    if v.doc.Some? {
      assert ts[1..] == [Assignment(v.name, v.value)] + rest;
    }
    assert ts[|FlattenVar(v)|..] == rest;
  }

  lemma {:induction false} VarsReadBack(vs: seq<Variable>, rest: seq<Token>)
    requires !StartsVar(rest) && !StartsDoc(rest)
    ensures Vars(FlattenVars(vs) + rest) == (vs, rest)
    decreases |vs|
  {
    if vs == [] {
      assert FlattenVars(vs) + rest == rest;
    } else {
      var more := FlattenVars(vs[1..]) + rest;
      VarsReadBack(vs[1..], rest);
      OneVarReadBack(vs[0], more);
      assert FlattenVars(vs) + rest == FlattenVar(vs[0]) + more;
      hide OneVar, FlattenVar, FlattenVars;
      assert [vs[0]] + vs[1..] == vs;
    }
  }

  lemma FlattenedSubsStart(subs: seq<SubSection>, rest: seq<Token>)
    requires AtSection(rest) && (subs != [] ==> subs[0].heading != "")
    ensures var ts := FlattenSubs(subs) + rest;
      && !StartsVar(ts) && !StartsDoc(ts) && !StartsSectionDoc(ts)
      && (StartsSub(ts) <==> subs != [])
  {
    if subs == [] {
      assert FlattenSubs(subs) + rest == rest;
    }
  }

  lemma Regroup<T>(a: seq<T>, b: seq<T>, c: seq<T>, d: seq<T>)
    ensures a + b + c + d == a + (b + (c + d))
  {
  }

  lemma SubSectionsStep(heading: string, tail: seq<Token>)
    ensures var vs, rest := Vars(tail).0, Vars(tail).1;
      SubSections([SubHeading(heading)] + tail)
      == ([SubSection(heading, vs)] + SubSections(rest).0, SubSections(rest).1)
  {
    var ts := [SubHeading(heading)] + tail;
    assert ts[1..] == tail;
    hide Vars;
  }

  lemma {:induction false} SubsReadBack(subs: seq<SubSection>, rest: seq<Token>)
    requires AtSection(rest) && forall i :: 0 <= i < |subs| ==> subs[i].heading != ""
    ensures SubSections(FlattenSubs(subs) + rest) == (subs, rest)
    decreases |subs|
  {
    var ts := FlattenSubs(subs) + rest;
    if subs == [] {
      assert ts == rest;
    } else {
      var more := FlattenSubs(subs[1..]) + rest;
      FlattenedSubsStart(subs[1..], rest);
      VarsReadBack(subs[0].variables, more);
      SubsReadBack(subs[1..], rest);
      var tail := FlattenVars(subs[0].variables) + more;
      assert FlattenSubs(subs) == [SubHeading(subs[0].heading)] + FlattenVars(subs[0].variables) + FlattenSubs(subs[1..]);
      hide *;
      Regroup([SubHeading(subs[0].heading)], FlattenVars(subs[0].variables), FlattenSubs(subs[1..]), rest);
      SubSectionsStep(subs[0].heading, tail);
      assert [subs[0]] + subs[1..] == subs;
    }
  }

  lemma EmptyBodyReadsBack(rest: seq<Token>)
    requires AtSection(rest)
    ensures Body(rest).1 == rest && Pruned(Body(rest).0) == []
  {
    assert Vars(rest) == ([], rest);
    assert SubSections(rest) == ([], rest);
  }

  lemma ImplicitBodyReadsBack(vs: seq<Variable>, subs: seq<SubSection>, rest: seq<Token>)
    requires AtSection(rest) && vs != [] && forall i :: 0 <= i < |subs| ==> subs[i].heading != ""
    ensures var ts := FlattenVars(vs) + (FlattenSubs(subs) + rest);
      Body(ts) == ([SubSection("", vs)] + subs, rest) && !StartsSectionDoc(ts)
  {
    var more := FlattenSubs(subs) + rest;
    FlattenedSubsStart(subs, rest);
    VarsReadBack(vs, more);
    SubsReadBack(subs, rest);
    assert FlattenVars(vs)[0].VarDoc? || FlattenVars(vs)[0].Assignment?;
    hide FlattenSubs, FlattenVars, Vars, SubSections;
  }

  lemma BodyReadsBack(subs: seq<SubSection>, rest: seq<Token>)
    requires AtSection(rest) && NormalSubs(subs)
    ensures var ts := FlattenSubs(subs) + rest;
      Body(ts).1 == rest && Pruned(Body(ts).0) == subs && !StartsSectionDoc(ts)
  {
    var ts := FlattenSubs(subs) + rest;
    if subs == [] {
      assert ts == rest;
      EmptyBodyReadsBack(rest);
    } else if subs[0].heading == "" {
      assert FlattenSubs(subs) == [] + FlattenVars(subs[0].variables) + FlattenSubs(subs[1..]);
      hide FlattenSubs, FlattenVars, Body, Pruned;
      Regroup([], FlattenVars(subs[0].variables), FlattenSubs(subs[1..]), rest);
      ImplicitBodyReadsBack(subs[0].variables, subs[1..], rest);
      assert [] + (FlattenVars(subs[0].variables) + (FlattenSubs(subs[1..]) + rest))
             == FlattenVars(subs[0].variables) + (FlattenSubs(subs[1..]) + rest);
      assert [subs[0]] + subs[1..] == subs;
      NormalIsUnpruned(subs);
    } else {
      hide Pruned;
      FlattenedSubsStart(subs, rest);
      SubsReadBack(subs, rest);
      NormalIsUnpruned(subs);
    }
  }

  lemma NormalIsUnpruned(subs: seq<SubSection>)
    requires NormalSubs(subs)
    ensures Pruned(subs) == subs
  {
  }

  lemma OneSectionReadsBack(s: Section, rest: seq<Token>)
    requires AtSection(rest) && NormalSubs(s.subsections)
    ensures var ts := FlattenHead(s) + FlattenSubs(s.subsections) + rest;
      ts != [] && ts[0].SectionHeading? && OneSection(ts) == (s, rest)
  {
    var body := FlattenSubs(s.subsections) + rest;
    var ts := FlattenHead(s) + FlattenSubs(s.subsections) + rest;
    BodyReadsBack(s.subsections, rest);
    assert ts == FlattenHead(s) + body;
    assert ts[0] == SectionHeading(s.heading, s.customizable);
    if s.doc.Some? {
      assert ts[1..] == [SectionDoc(s.doc.value)] + body;
      assert AfterDoc(ts[1..]) == body;
    } else {
      assert ts[1..] == body;
    }
  }

  lemma FileStep(ts: seq<Token>, section: Section, rest: seq<Token>, more: seq<Section>)
    requires ts != [] && ts[0].SectionHeading? && OneSection(ts) == (section, rest) && File(rest) == Parsed(more)
    ensures File(ts) == Parsed([section] + more)
  {
    hide OneSection;
  }

  lemma FlattenedStart(sections: seq<Section>)
    ensures AtSection(Flatten(sections))
  {
  }

  /** Every normal tree is what the parser makes of its own tokens. */
  lemma {:induction false} ReadsBack(sections: seq<Section>)
    requires Normal(sections)
    ensures File(Flatten(sections)) == Parsed(sections)
    decreases |sections|
  {
    if sections != [] {
      var rest, ts := Flatten(sections[1..]), Flatten(sections);
      ReadsBack(sections[1..]);
      FlattenedStart(sections[1..]);
      OneSectionReadsBack(sections[0], rest);
      hide OneSection, FlattenHead, FlattenSubs, AtSection, Normal, File;
      FileStep(ts, sections[0], rest, sections[1..]);
      assert [sections[0]] + sections[1..] == sections;
    }
  }

  // ---------------------------------------------------------------- the trees that the parser makes

  lemma {:induction false} SubSectionsAreHeaded(ts: seq<Token>, i: nat)
    requires i < |SubSections(ts).0|
    requires forall j :: 0 <= j < |ts| ==> !EmptyHeading(ts[j..])
    ensures SubSections(ts).0[i].heading != ""
    decreases |ts|
  {
    var rest := Vars(ts[1..]).1;
    VarsLeaves(ts[1..]);
    assert ts[0..] == ts;
    if i != 0 {
      var k := |ts| - |rest|;
      assert rest == ts[k..];
      forall j | 0 <= j < |rest|
        ensures !EmptyHeading(rest[j..])
      {
        assert rest[j..] == ts[k + j..];
      }
      SubSectionsAreHeaded(rest, i - 1);
    }
  }

  lemma FaithfulSuffix(rest: seq<Token>, ts: seq<Token>)
    requires Faithful(ts) && IsSuffix(rest, ts)
    ensures Faithful(rest)
  {
    var k := |ts| - |rest|;
    forall j | 0 <= j < |rest|
      ensures !Dangling(rest[j..]) && !EmptyHeading(rest[j..])
    {
      assert rest[j..] == ts[k + j..];
    }
  }

  /** Without variables, the reading of variables has read nothing, or a dangling docstring. */
  lemma NoVars(ts: seq<Token>)
    requires Vars(ts).0 == [] && Faithful(ts)
    ensures Vars(ts).1 == ts
  {
    if ts != [] {
      assert ts[0..] == ts;
    }
  }

  lemma BodyIsNormal(ts: seq<Token>)
    requires Faithful(ts)
    ensures NormalSubs(Pruned(Body(ts).0))
  {
    var subs := Body(ts).0;
    var from := if StartsSub(ts) then ts else Vars(ts).1;
    if !StartsSub(ts) {
      VarsLeaves(ts);
      if Vars(ts).0 == [] {
        NoVars(ts);
      }
    }
    FaithfulSuffix(from, ts);
    hide Vars, Pruned;
    forall i | 0 <= i < |SubSections(from).0|
      ensures SubSections(from).0[i].heading != ""
    {
      SubSectionsAreHeaded(from, i);
    }
    hide SubSections;
    if !StartsSub(ts) {
      assert forall i :: 1 <= i < |subs| ==> subs[i] == SubSections(from).0[i - 1];
      PruneImplicit(subs);
    } else {
      assert subs == SubSections(from).0;
      NormalIsUnpruned(subs);
    }
  }

  lemma PruneImplicit(subs: seq<SubSection>)
    requires subs != [] && (subs[0].variables == [] ==> |subs| == 1)
    requires forall i :: 1 <= i < |subs| ==> subs[i].heading != ""
    ensures NormalSubs(Pruned(subs))
  {
  }

  /** A file that loses nothing is read into a normal tree, so between such files and normal trees the parser and
      the writing back are inverse to each other. */
  lemma {:induction false} ParsedIsNormal(ts: seq<Token>)
    requires File(ts).Parsed? && Faithful(ts)
    ensures Normal(File(ts).value) && Flatten(File(ts).value) == ts
    decreases |ts|
  {
    LosslessExactly(ts);
    if ts != [] {
      var rest := OneSection(ts).1;
      OneSectionLeaves(ts);
      FaithfulSuffix(rest, ts);
      ParsedIsNormal(rest);
      var body := AfterDoc(ts[1..]);
      assert IsSuffix(body, ts);
      FaithfulSuffix(body, ts);
      BodyIsNormal(body);
      hide NormalSubs, Pruned, Body, Flatten, Faithful, IsSuffix;
      var sections := File(ts).value;
      assert forall i :: 1 <= i < |sections| ==> sections[i] == File(rest).value[i - 1];
    }
  }
}
