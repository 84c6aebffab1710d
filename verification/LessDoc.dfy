/** The mini-language of the Less docstrings: tokens, the tree, and what the recursive-descent parser computes. */
module LessDoc {
  import opened Messages

  /** A classified line. Headings are trimmed. */
  datatype Token =
    | SectionHeading(heading: string, customizable: bool)
    | SectionDoc(text: string)
    | SubHeading(heading: string)
    | VarDoc(text: string)
    | Assignment(name: string, value: string)

  datatype Variable = Variable(name: string, value: string, doc: Option<string>)

  datatype SubSection = SubSection(heading: string, variables: seq<Variable>)

  datatype Section = Section(heading: string, customizable: bool, doc: Option<string>, subsections: seq<SubSection>)

  /** The parser's result, or the error that it throws. */
  datatype Outcome<T> = Parsed(value: T) | ExpectedSection(got: Token) | UnparsedRemains {
    predicate IsFailure() { !Parsed? }

    function PropagateFailure<U>(): Outcome<U>
      requires IsFailure()
    {
      match this
      case ExpectedSection(t) => ExpectedSection(t)
      case UnparsedRemains => UnparsedRemains
    }

    function Extract(): T
      requires !IsFailure()
    {
      value
    }
  }

  function Tail<T>(s: seq<T>): seq<T> {
    if s == [] then [] else s[1..]
  }

  predicate StartsVar(ts: seq<Token>) {
    ts != [] && ts[0].Assignment?
  }

  predicate StartsDoc(ts: seq<Token>) {
    ts != [] && ts[0].VarDoc?
  }

  predicate StartsSub(ts: seq<Token>) {
    ts != [] && ts[0].SubHeading?
  }

  predicate AtSection(ts: seq<Token>) {
    ts == [] || ts[0].SectionHeading?
  }

  /** One variable with its optional docstring; a docstring without a variable is swallowed. */
  function OneVar(ts: seq<Token>): (r: (Option<Variable>, seq<Token>))
    ensures |r.1| <= |ts| && (r.0.Some? ==> |r.1| < |ts|)
  {
    var doc := if StartsDoc(ts) then Some(ts[0].text) else None;
    var rest := if StartsDoc(ts) then ts[1..] else ts;
    if StartsVar(rest) then (Some(Variable(rest[0].name, rest[0].value, doc)), rest[1..]) else (None, rest)
  }

  function Vars(ts: seq<Token>): (r: (seq<Variable>, seq<Token>))
    ensures |r.1| <= |ts|
    decreases |ts|
  {
    var (v, rest) := OneVar(ts);
    match v
    case None => ([], rest)
    case Some(v) => var (vs, end) := Vars(rest); ([v] + vs, end)
  }

  /** Subsections with a heading. */
  function SubSections(ts: seq<Token>): (r: (seq<SubSection>, seq<Token>))
    ensures |r.1| <= |ts|
    decreases |ts|
  {
    if StartsSub(ts) then
      var (vs, rest) := Vars(ts[1..]);
      var (subs, end) := SubSections(rest);
      ([SubSection(ts[0].heading, vs)] + subs, end)
    else ([], ts)
  }

  /** All subsections of a section; variables before the first heading make an implicit one. */
  function Body(ts: seq<Token>): (r: (seq<SubSection>, seq<Token>))
    ensures |r.1| <= |ts|
  {
    if StartsSub(ts) then SubSections(ts)
    else
      var (vs, rest) := Vars(ts);
      var (subs, end) := SubSections(rest);
      ([SubSection("", vs)] + subs, end)
  }

  /** A lone empty subsection without a heading is dropped. */
  function Pruned(subs: seq<SubSection>): seq<SubSection> {
    if |subs| == 1 && subs[0].heading == "" && subs[0].variables == [] then [] else subs
  }

  predicate StartsSectionDoc(ts: seq<Token>) {
    ts != [] && ts[0].SectionDoc?
  }

  function AfterDoc(ts: seq<Token>): (r: seq<Token>)
    ensures |r| <= |ts|
  {
    if StartsSectionDoc(ts) then ts[1..] else ts
  }

  function DocOf(ts: seq<Token>): Option<string> {
    if StartsSectionDoc(ts) then Some(ts[0].text) else None
  }

  function OneSection(ts: seq<Token>): (r: (Section, seq<Token>))
    requires ts != [] && ts[0].SectionHeading?
    ensures |r.1| < |ts|
  {
    var (subs, end) := Body(AfterDoc(ts[1..]));
    (Section(ts[0].heading, ts[0].customizable, DocOf(ts[1..]), Pruned(subs)), end)
  }

  function File(ts: seq<Token>): Outcome<seq<Section>>
    decreases |ts|
  {
    if ts == [] then Parsed([])
    else if !ts[0].SectionHeading? then ExpectedSection(ts[0])
    else
      var (section, rest) := OneSection(ts);
      match File(rest)
      case Parsed(sections) => Parsed([section] + sections)
      case e => e
  }

  // ---------------------------------------------------------------- what is left is a suffix

  /** `rest` is what is left of `ts`. */
  predicate IsSuffix(rest: seq<Token>, ts: seq<Token>) {
    |rest| <= |ts| && rest == ts[|ts| - |rest|..]
  }

  lemma SuffixOfSuffix(a: seq<Token>, b: seq<Token>, c: seq<Token>)
    requires IsSuffix(a, b) && IsSuffix(b, c)
    ensures IsSuffix(a, c)
  {
  }

  lemma OneVarLeaves(ts: seq<Token>)
    ensures IsSuffix(OneVar(ts).1, ts)
  {
  }

  lemma {:induction false} VarsLeaves(ts: seq<Token>)
    ensures IsSuffix(Vars(ts).1, ts)
    decreases |ts|
  {
    OneVarLeaves(ts);
    var (v, rest) := OneVar(ts);
    hide OneVar, IsSuffix;
    if v.Some? {
      VarsLeaves(rest);
      SuffixOfSuffix(Vars(rest).1, rest, ts);
    }
  }

  lemma {:induction false} SubSectionsLeaves(ts: seq<Token>)
    ensures IsSuffix(SubSections(ts).1, ts)
    decreases |ts|
  {
    if StartsSub(ts) {
      var rest := Vars(ts[1..]).1;
      VarsLeaves(ts[1..]);
      SuffixOfSuffix(rest, ts[1..], ts);
      hide Vars, IsSuffix;
      SubSectionsLeaves(rest);
      SuffixOfSuffix(SubSections(rest).1, rest, ts);
    }
  }

  lemma OneSectionLeaves(ts: seq<Token>)
    requires ts != [] && ts[0].SectionHeading?
    ensures IsSuffix(OneSection(ts).1, ts)
  {
    var body := AfterDoc(ts[1..]);
    var rest := Vars(body).1;
    VarsLeaves(body);
    SubSectionsLeaves(body);
    SubSectionsLeaves(rest);
    assert IsSuffix(body, ts);
    hide IsSuffix, Vars, SubSections, AfterDoc;
    SuffixOfSuffix(SubSections(rest).1, rest, body);
    SuffixOfSuffix(Body(body).1, body, ts);
  }
}
