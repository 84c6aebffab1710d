/** The Less docstring parser as the code has it: a tokenizer with one token of pushback, and a recursive-descent
    parser on top of it. Lines arrive classified; None stands for an ignored line. */
module LessDocParser {
  import opened Messages
  import opened LessDoc
  import LessDocLanguage
  import LessDocOutline

  function Tokens(lines: seq<Option<Token>>): seq<Token> {
    if lines == [] then []
    else (if lines[0].Some? then [lines[0].value] else []) + Tokens(lines[1..])
  }

  /** The tokens come in the order of the lines, one for each line that is not ignored. */
  lemma {:induction false} TokensOfSum(a: seq<Option<Token>>, b: seq<Option<Token>>)
    ensures Tokens(a + b) == Tokens(a) + Tokens(b)
    ensures forall t: Token :: Tokens([Some(t)]) == [t]
    ensures Tokens([None]) == []
    decreases |a|
  {
    assert forall t: Token :: [Some(t)][1..] == [];
    if a == [] {
      assert a + b == b;
    } else {
      TokensOfSum(a[1..], b);
      assert (a + b)[1..] == a[1..] + b;
    }
  }

  class Tokenizer {
    var lines: seq<Option<Token>>
    var next: Option<Option<Token>>  // None: nothing pushed back; Some(None): the end of the file pushed back
    var thrown: bool                 // "Attempted to unshift twice!" was thrown

    constructor (lines: seq<Option<Token>>)
      ensures Valid() && Pending() == Tokens(lines) && next.None? && !thrown
    {
      this.lines, next, thrown := lines, None, false;
    }

    /** The end of the file is pushed back only when it was reached. */
    ghost predicate Valid()
      reads this
    {
      next == Some(None) ==> lines == []
    }

    /** The tokens still to come. */
    ghost function Pending(): seq<Token>
      reads this
    {
      match next
      case None => Tokens(lines)
      case Some(None) => []
      case Some(Some(t)) => [t] + Tokens(lines)
    }

    /** Remaining lines plus the token pushed back. */
    ghost function Size(): nat
      reads this
    {
      |lines| + if next.Some? then 1 else 0
    }

    method Unshift(token: Option<Token>)
      modifies this`next, this`thrown
      ensures thrown == (old(thrown) || old(next).Some?)
      ensures next == if old(next).Some? then old(next) else Some(token)
    {
      if next != None {
        thrown := true;
      } else {
        next := Some(token);
      }
    }

    /** One line: None when it is ignored, Some(None) at the end of the file. */
    method ShiftLine() returns (r: Option<Option<Token>>)
      requires Valid()
      modifies this`lines, this`next
      ensures Valid() && next.None?
      ensures r.None? ==> Pending() == old(Pending()) && Size() < old(Size())
      ensures r == Some(None) ==> old(Pending()) == [] == Pending() && lines == []
      ensures r.Some? && r.value.Some? ==> old(Pending()) == [r.value.value] + Pending() && Size() < old(Size())
    {
      if next != None {
        r := next;
        next := None;
        return;
      }
      if lines == [] {
        return Some(None);
      }
      var line := lines[0];
      lines := lines[1..];
      match line
      case Some(t) => return Some(Some(t));
      case None => return None;
    }

    /** The next token, or None at the end of the file. */
    method Shift() returns (r: Option<Token>)
      requires Valid()
      modifies this`lines, this`next
      ensures Valid() && next.None?
      ensures r == if old(Pending()) == [] then None else Some(old(Pending())[0])
      ensures Pending() == Tail(old(Pending()))
      ensures r.None? ==> lines == []
      ensures Size() <= old(Size())
    {
      while true
        invariant Valid() && Pending() == old(Pending()) && Size() <= old(Size())
        decreases Size()
      {
        var result := ShiftLine();
        if result.None? {
          continue;
        }
        return result.value;
      }
    }
  }

  class Parser {
    const tokenizer: Tokenizer

    constructor (lines: seq<Option<Token>>)
      ensures fresh(tokenizer) && tokenizer.Valid() && !tokenizer.thrown && tokenizer.Pending() == Tokens(lines)
    {
      tokenizer := new Tokenizer(lines);
    }

    method ParseVar() returns (r: Option<Variable>)
      requires tokenizer.Valid()
      modifies tokenizer
      ensures tokenizer.Valid() && tokenizer.thrown == old(tokenizer.thrown)
      ensures r == OneVar(old(tokenizer.Pending())).0
      ensures tokenizer.Pending() == OneVar(old(tokenizer.Pending())).1
    {
      var docstring := tokenizer.Shift();
      var doc: Option<string> := None;
      if docstring.Some? && docstring.value.VarDoc? {
        doc := Some(docstring.value.text);
      } else {
        tokenizer.Unshift(docstring);
      }
      var variable := tokenizer.Shift();
      if variable.Some? && variable.value.Assignment? {
        return Some(Variable(variable.value.name, variable.value.value, doc));
      }
      tokenizer.Unshift(variable);
      return None;
    }

    method ParseVars(subsection: SubSection) returns (r: SubSection)
      requires tokenizer.Valid()
      modifies tokenizer
      ensures tokenizer.Valid() && tokenizer.thrown == old(tokenizer.thrown)
      ensures r == SubSection(subsection.heading, subsection.variables + Vars(old(tokenizer.Pending())).0)
      ensures tokenizer.Pending() == Vars(old(tokenizer.Pending())).1
    {
      var variables := subsection.variables;
      ghost var ts := tokenizer.Pending();
      while true
        invariant tokenizer.Valid() && tokenizer.thrown == old(tokenizer.thrown)
        invariant variables + Vars(tokenizer.Pending()).0 == subsection.variables + Vars(ts).0
        invariant Vars(tokenizer.Pending()).1 == Vars(ts).1
        decreases |tokenizer.Pending()|
      {
        var variable := ParseVar();
        if variable.None? {
          assert variables == subsection.variables + Vars(ts).0;
          return SubSection(subsection.heading, variables);
        }
        variables := variables + [variable.value];
      }
    }

    /** A subsection with its heading, or None with nothing read. */
    method ParseSubSection() returns (r: Option<SubSection>)
      requires tokenizer.Valid()
      modifies tokenizer
      ensures tokenizer.Valid() && tokenizer.thrown == old(tokenizer.thrown)
      ensures var ts := old(tokenizer.Pending());
        if StartsSub(ts) then
          r == Some(SubSection(ts[0].heading, Vars(ts[1..]).0)) && tokenizer.Pending() == Vars(ts[1..]).1
        else r.None? && tokenizer.Pending() == ts
    {
      var token := tokenizer.Shift();
      if token.Some? && token.value.SubHeading? {
        var subsection := ParseVars(SubSection(token.value.heading, []));
        assert subsection.variables == Vars(old(tokenizer.Pending())[1..]).0;
        return Some(subsection);
      }
      tokenizer.Unshift(token);
      return None;
    }

    /** Where the loop below is: nothing read yet, or only subsections with headings to come. */
    static ghost predicate Midway(ts: seq<Token>, subs: seq<SubSection>, now: seq<Token>) {
      if subs == [] then now == ts
      else Body(ts) == (subs + SubSections(now).0, SubSections(now).1)
    }

    static lemma MidwaySub(ts: seq<Token>, subs: seq<SubSection>, now: seq<Token>)
      requires Midway(ts, subs, now) && StartsSub(now)
      ensures var vs, rest := Vars(now[1..]).0, Vars(now[1..]).1;
        Midway(ts, subs + [SubSection(now[0].heading, vs)], rest)
    {
      var sub, rest := SubSection(now[0].heading, Vars(now[1..]).0), Vars(now[1..]).1;
      assert SubSections(now) == ([sub] + SubSections(rest).0, SubSections(rest).1);
      assert subs + ([sub] + SubSections(rest).0) == (subs + [sub]) + SubSections(rest).0;
      if subs == [] {
        assert subs + [sub] == [sub];
      }
    }

    static lemma MidwayImplicit(ts: seq<Token>, sub: SubSection)
      requires !StartsSub(ts) && sub == SubSection("", [] + Vars(ts).0)
      ensures Midway(ts, [] + [sub], Vars(ts).1)
    {
      assert [] + Vars(ts).0 == Vars(ts).0 && [] + [sub] == [sub];
    }

    static lemma MidwayEnd(ts: seq<Token>, subs: seq<SubSection>, now: seq<Token>)
      requires Midway(ts, subs, now) && !StartsSub(now) && subs != []
      ensures Body(ts) == (subs, now)
    {
      assert subs + [] == subs;
    }

    method ParseSubSections() returns (r: seq<SubSection>)
      requires tokenizer.Valid()
      modifies tokenizer
      ensures tokenizer.Valid() && tokenizer.thrown == old(tokenizer.thrown)
      ensures r == Pruned(Body(old(tokenizer.Pending())).0)
      ensures tokenizer.Pending() == Body(old(tokenizer.Pending())).1
      ensures AtSection(tokenizer.Pending()) ==>
                LessDocOutline.MarksOf(r) == LessDocOutline.SectionMarks(old(tokenizer.Pending()))
    {
      var subsections: seq<SubSection> := [];
      ghost var ts := tokenizer.Pending();
      assert Midway(ts, [], ts);
      hide Midway, SubSections, Body, Vars;
      while true
        invariant tokenizer.Valid() && tokenizer.thrown == old(tokenizer.thrown) && Midway(ts, subsections, tokenizer.Pending())
        decreases |tokenizer.Pending()|, if subsections == [] then 1 else 0
      {
        ghost var now := tokenizer.Pending();
        if StartsSub(now) {
          MidwaySub(ts, subsections, now);
        }
        var subsection := ParseSubSection();
        if subsection.None? {
          if subsections == [] {
            // an implicit initial subsection
            var implicit := ParseVars(SubSection("", []));
            subsection := Some(implicit);
            MidwayImplicit(ts, implicit);
          } else {
            MidwayEnd(ts, subsections, now);
            break;
          }
        }
        subsections := subsections + [subsection.value];
      }
      if |subsections| == 1 && subsections[0].heading == "" && |subsections[0].variables| == 0 {
        subsections := [];
      }
      if AtSection(tokenizer.Pending()) {
        LessDocOutline.BodyIsMarked(ts);
      }
      return subsections;
    }

    /** One section, or None at the end of the file. */
    method ParseSection() returns (r: Outcome<Option<Section>>)
      requires tokenizer.Valid()
      modifies tokenizer
      ensures tokenizer.Valid() && tokenizer.thrown == old(tokenizer.thrown)
      ensures var ts := old(tokenizer.Pending());
        if ts == [] then r == Parsed(None) && tokenizer.Pending() == [] && tokenizer.next.None?
        else if ts[0].SectionHeading? then r == Parsed(Some(OneSection(ts).0)) && tokenizer.Pending() == OneSection(ts).1
        else r == ExpectedSection(ts[0])
    {
      var token := tokenizer.Shift();
      if token.None? {
        return Parsed(None);
      }
      if !token.value.SectionHeading? {
        return ExpectedSection(token.value);
      }
      var section := Section(token.value.heading, token.value.customizable, None, []);
      var docstring := tokenizer.Shift();
      if docstring.Some? && docstring.value.SectionDoc? {
        section := section.(doc := Some(docstring.value.text));
      } else {
        tokenizer.Unshift(docstring);
      }
      assert tokenizer.Pending() == AfterDoc(old(tokenizer.Pending())[1..]);
      hide Body, Pruned;
      var subsections := ParseSubSections();
      return Parsed(Some(section.(subsections := subsections)));
    }

    /** What the loop below still has to do. */
    static ghost function FileFrom(sections: seq<Section>, now: seq<Token>): Outcome<seq<Section>> {
      match File(now)
      case Parsed(more) => Parsed(sections + more)
      case e => e
    }

    static lemma FileFromStart(ts: seq<Token>)
      ensures FileFrom([], ts) == File(ts)
      ensures !File(ts).UnparsedRemains?
    {
      LessDocLanguage.AcceptsExactly(ts);
      if File(ts).Parsed? {
        assert [] + File(ts).value == File(ts).value;
      }
    }

    static lemma FileFromNext(sections: seq<Section>, now: seq<Token>)
      requires now != [] && now[0].SectionHeading?
      ensures FileFrom(sections, now) == FileFrom(sections + [OneSection(now).0], OneSection(now).1)
    {
      var section, rest := OneSection(now).0, OneSection(now).1;
      hide OneSection;
      if File(rest).Parsed? {
        assert sections + ([section] + File(rest).value) == (sections + [section]) + File(rest).value;
      }
    }

    /** The whole file. Whatever the lines, the parser neither pushes back twice nor leaves a part of the file
        unread; it stops with the first token that no accepted file could have there, or returns the tree. */
    method ParseFile() returns (r: Outcome<seq<Section>>)
      requires tokenizer.Valid()
      modifies tokenizer
      ensures r == File(old(tokenizer.Pending())) && !r.UnparsedRemains?
      ensures tokenizer.thrown == old(tokenizer.thrown)
      ensures r.Parsed? <==> LessDocLanguage.WellFormed(LessDocLanguage.Kinds(old(tokenizer.Pending())))
      ensures r.Parsed? ==> LessDocOutline.TreeMarks(r.value) == LessDocOutline.FileMarks(old(tokenizer.Pending()))
    {
      ghost var ts := tokenizer.Pending();
      if File(ts).Parsed? {
        LessDocOutline.OutlineExactly(ts);
      }
      LessDocLanguage.AcceptsExactly(ts);
      FileFromStart(ts);
      hide LessDocLanguage.WellFormed, OneSection;
      var sections: seq<Section> := [];
      while true
        invariant tokenizer.Valid() && tokenizer.thrown == old(tokenizer.thrown) && File(ts) == FileFrom(sections, tokenizer.Pending())
        decreases |tokenizer.Pending()|
      {
        ghost var now := tokenizer.Pending();
        if now != [] && now[0].SectionHeading? {
          FileFromNext(sections, now);
        }
        var section :- ParseSection();
        if section.None? {
          var rest := tokenizer.Shift();
          assert FileFrom(sections, []) == Parsed(sections) by {
            assert sections + [] == sections;
          }
          return if rest.Some? then UnparsedRemains else Parsed(sections);
        }
        sections := sections + [section.value];
      }
    }
  }
}
