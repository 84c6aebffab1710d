/** The accepted language as a regular expression: (S D? (d? V)* d? (U (d? V)* d?)*)*. */
module LessDocGrammar {
  import opened LessDoc
  import opened LessDocLanguage

  datatype Regex = Sym(k: Kind) | Opt(r: Regex) | Cat(a: Regex, b: Regex) | Star(r: Regex)

  ghost predicate Matches(e: Regex, w: seq<Kind>)
    decreases e, |w|
  {
    match e
    case Sym(k) => w == [k]
    case Opt(r) => w == [] || Matches(r, w)
    case Cat(a, b) => exists i :: 0 <= i <= |w| && Matches(a, w[..i]) && Matches(b, w[i..])
    case Star(r) => w == [] || exists i :: 1 <= i <= |w| && Matches(r, w[..i]) && Matches(e, w[i..])
  }

  const VarRule := Cat(Opt(Sym(Doc)), Sym(V))
  const VarsRule := Cat(Star(VarRule), Opt(Sym(Doc)))
  const SubRule := Cat(Sym(U), VarsRule)
  const SectionRule := Cat(Cat(Sym(S), Opt(Sym(D))), Cat(VarsRule, Star(SubRule)))
  const FileRule := Star(SectionRule)

  lemma CatMatches(a: Regex, u: seq<Kind>, b: Regex, v: seq<Kind>)
    requires Matches(a, u) && Matches(b, v)
    ensures Matches(Cat(a, b), u + v)
  {
    var w := u + v;
    assert w[..|u|] == u && w[|u|..] == v;
  }

  lemma StarMatches(r: Regex, u: seq<Kind>, v: seq<Kind>)
    requires Matches(r, u) && Matches(Star(r), v)
    ensures Matches(Star(r), u + v)
  {
    var w := u + v;
    if u == [] {
      assert w == v;
    } else {
      assert w[..|u|] == u && w[|u|..] == v;
    }
  }

  lemma CatSplit(a: Regex, b: Regex, w: seq<Kind>) returns (u: seq<Kind>, v: seq<Kind>)
    requires Matches(Cat(a, b), w)
    ensures w == u + v && Matches(a, u) && Matches(b, v)
  {
    var i :| 0 <= i <= |w| && Matches(a, w[..i]) && Matches(b, w[i..]);
    u, v := w[..i], w[i..];
  }

  lemma StarSplit(r: Regex, w: seq<Kind>) returns (u: seq<Kind>, v: seq<Kind>)
    requires Matches(Star(r), w) && w != []
    ensures w == u + v && u != [] && Matches(r, u) && Matches(Star(r), v)
  {
    var i :| 1 <= i <= |w| && Matches(r, w[..i]) && Matches(Star(r), w[i..]);
    u, v := w[..i], w[i..];
  }

  lemma StarOfNothing(r: Regex)
    ensures Matches(Star(r), [])
  {
  }

  lemma OptSymMatches(k: Kind, w: seq<Kind>)
    ensures Matches(Opt(Sym(k)), w) <==> w == [] || w == [k]
    ensures Matches(Sym(k), w) <==> w == [k]
  {
  }

  // ---------------------------------------------------------------- what matches is well formed

  /** The last kind of a word, or the one before it. */
  function Last(prev: Kind, w: seq<Kind>): Kind {
    if w == [] then prev else w[|w| - 1]
  }

  lemma LinkedConcat(prev: Kind, u: seq<Kind>, v: seq<Kind>)
    requires Linked(prev, u) && Linked(Last(prev, u), v)
    ensures Linked(prev, u + v) && Last(prev, u + v) == Last(Last(prev, u), v)
  {
    hide MayFollow;
    var w := u + v;
    forall i | 0 <= i < |w|
      ensures MayFollow(KindBefore(prev, w, i), w[i])
    {
      if i < |u| {
        assert MayFollow(KindBefore(prev, u, i), u[i]);
      } else {
        assert MayFollow(KindBefore(Last(prev, u), v, i - |u|), v[i - |u|]);
      }
    }
  }

  lemma LinkedOne(prev: Kind, k: Kind)
    ensures Linked(prev, []) && (Linked(prev, [k]) <==> MayFollow(prev, k))
  {
    assert Linked(prev, [k]) ==> MayFollow(KindBefore(prev, [k], 0), [k][0]);
  }

  lemma VarRuleIsLinked(prev: Kind, w: seq<Kind>)
    requires Matches(VarRule, w) && !prev.Start? && !prev.Doc?
    ensures Linked(prev, w) && Last(prev, w) == V
  {
    hide Matches, Linked;
    var u, v := CatSplit(Opt(Sym(Doc)), Sym(V), w);
    OptSymMatches(Doc, u);
    OptSymMatches(V, v);
    LinkedOne(prev, Doc);
    LinkedOne(Last(prev, u), V);
    LinkedConcat(prev, u, v);
  }

  lemma {:induction false} VarStarIsLinked(prev: Kind, w: seq<Kind>)
    requires Matches(Star(VarRule), w) && !prev.Start? && !prev.Doc?
    ensures Linked(prev, w) && Last(prev, w) in {prev, V}
    decreases |w|
  {
    if w != [] {
      hide Matches, Linked;
      var u, v := StarSplit(VarRule, w);
      VarRuleIsLinked(prev, u);
      VarStarIsLinked(V, v);
      LinkedConcat(prev, u, v);
    }
  }

  lemma VarsRuleIsLinked(prev: Kind, w: seq<Kind>)
    requires Matches(VarsRule, w) && !prev.Start? && !prev.Doc?
    ensures Linked(prev, w) && Last(prev, w) in {prev, V, Doc}
  {
    hide Matches, Linked;
    var u, v := CatSplit(Star(VarRule), Opt(Sym(Doc)), w);
    VarStarIsLinked(prev, u);
    OptSymMatches(Doc, v);
    LinkedOne(Last(prev, u), Doc);
    LinkedConcat(prev, u, v);
  }

  lemma {:induction false} SubStarIsLinked(prev: Kind, w: seq<Kind>)
    requires Matches(Star(SubRule), w) && !prev.Start?
    ensures Linked(prev, w) && !Last(prev, w).Start?
    decreases |w|
  {
    if w != [] {
      hide Matches, Linked;
      var u, v := StarSplit(SubRule, w);
      var head, vars := CatSplit(Sym(U), VarsRule, u);
      OptSymMatches(U, head);
      LinkedOne(prev, U);
      VarsRuleIsLinked(U, vars);
      LinkedConcat(prev, head, vars);
      SubStarIsLinked(Last(prev, u), v);
      LinkedConcat(prev, u, v);
    } else {
      LinkedOne(prev, U);
    }
  }

  lemma SectionRuleIsLinked(prev: Kind, w: seq<Kind>)
    requires Matches(SectionRule, w)
    ensures Linked(prev, w) && !Last(prev, w).Start?
  {
    hide Matches, Linked;
    var head, body := CatSplit(Cat(Sym(S), Opt(Sym(D))), Cat(VarsRule, Star(SubRule)), w);
    var s, d := CatSplit(Sym(S), Opt(Sym(D)), head);
    OptSymMatches(S, s);
    OptSymMatches(D, d);
    LinkedOne(prev, S);
    LinkedOne(S, D);
    LinkedConcat(prev, s, d);
    var vars, subs := CatSplit(VarsRule, Star(SubRule), body);
    VarsRuleIsLinked(Last(prev, head), vars);
    SubStarIsLinked(Last(Last(prev, head), vars), subs);
    LinkedConcat(Last(prev, head), vars, subs);
    LinkedConcat(prev, head, body);
  }

  lemma {:induction false} FileRuleIsLinked(prev: Kind, w: seq<Kind>)
    requires Matches(FileRule, w)
    ensures Linked(prev, w)
    decreases |w|
  {
    if w != [] {
      hide Matches, Linked;
      var u, v := StarSplit(SectionRule, w);
      SectionRuleIsLinked(prev, u);
      FileRuleIsLinked(Last(prev, u), v);
      LinkedConcat(prev, u, v);
    }
  }

  // ---------------------------------------------------------------- what is well formed matches

  lemma VarsRuleMore(x: seq<Kind>, u: seq<Kind>)
    requires Matches(VarRule, x) && Matches(VarsRule, u)
    ensures Matches(VarsRule, x + u)
  {
    hide Matches;
    var vars, doc := CatSplit(Star(VarRule), Opt(Sym(Doc)), u);
    StarMatches(VarRule, x, vars);
    CatMatches(Star(VarRule), x + vars, Opt(Sym(Doc)), doc);
    assert x + u == (x + vars) + doc;
  }

  lemma VarsRuleBase()
    ensures Matches(VarsRule, []) && Matches(VarsRule, [Doc])
    ensures Matches(VarRule, [V]) && Matches(VarRule, [Doc, V])
  {
    hide Matches;
    StarOfNothing(VarRule);
    OptSymMatches(Doc, []);
    OptSymMatches(Doc, [Doc]);
    OptSymMatches(V, [V]);
    CatMatches(Star(VarRule), [], Opt(Sym(Doc)), []);
    CatMatches(Star(VarRule), [], Opt(Sym(Doc)), [Doc]);
    CatMatches(Opt(Sym(Doc)), [], Sym(V), [V]);
    CatMatches(Opt(Sym(Doc)), [Doc], Sym(V), [V]);
    var none: seq<Kind> := [];
    assert none + [] == [] && none + [Doc] == [Doc] && none + [V] == [V] && [Doc] + [V] == [Doc, V];
  }

  predicate Stop(w: seq<Kind>) {
    w == [] || w[0].S? || w[0].U?
  }

  lemma LastIsEnough(p: Kind, q: Kind, v: seq<Kind>)
    requires Stop(v) && Linked(p, v) && !q.Start?
    ensures Linked(q, v)
  {
    if v != [] {
      LinkedTail(p, v);
      LinkedTail(q, v);
    }
  }

  /** What a well-formed word that is not at a stop begins with. */
  lemma VarOrDoc(prev: Kind, w: seq<Kind>)
    requires Linked(prev, w) && !prev.Start? && !prev.Doc? && !Stop(w) && !w[0].D?
    ensures if w[0].V? then Linked(V, w[1..]) && (w[1..] != [] ==> !w[1].D?)
            else w[0].Doc? && if Stop(w[1..]) then Linked(Doc, w[1..])
                              else w[1].V? && Linked(V, w[2..]) && (w[2..] != [] ==> !w[2].D?)
  {
    LinkedTail(prev, w);
    hide Linked;
    var tail := w[1..];
    if tail != [] {
      LinkedTail(w[0], tail);
      assert tail[1..] == w[2..];
      if w[2..] != [] {
        LinkedTail(w[1], w[2..]);
      }
    }
  }

  /** The word splits into variables and the rest, which starts with a heading. */
  lemma {:induction false} VarsSplit(prev: Kind, w: seq<Kind>) returns (u: seq<Kind>, v: seq<Kind>)
    requires Linked(prev, w) && !prev.Start? && !prev.Doc? && (w != [] ==> !w[0].D?)
    ensures w == u + v && Matches(VarsRule, u) && Stop(v) && Linked(prev, v)
    decreases |w|
  {
    VarsRuleBase();
    hide Matches;
    if Stop(w) {
      u, v := [], w;
    } else {
      VarOrDoc(prev, w);
      hide Linked, MayFollow;
      if w[0].Doc? && Stop(w[1..]) {
        u, v := [Doc], w[1..];
        LastIsEnough(Doc, prev, v);
      } else {
        var x := if w[0].V? then [V] else [Doc, V];
        var u';
        u', v := VarsSplit(V, w[|x|..]);
        VarsRuleMore(x, u');
        u := x + u';
        LastIsEnough(V, prev, v);
      }
    }
  }

  lemma SubRuleMatches(u: seq<Kind>)
    requires Matches(VarsRule, u)
    ensures Matches(SubRule, [U] + u)
  {
    OptSymMatches(U, [U]);
    hide Matches;
    CatMatches(Sym(U), [U], VarsRule, u);
  }

  /** The word splits into subsections and the rest, which starts with a section. */
  lemma {:induction false} SubStarSplit(prev: Kind, w: seq<Kind>) returns (u: seq<Kind>, v: seq<Kind>)
    requires Linked(prev, w) && !prev.Start? && Stop(w)
    ensures w == u + v && Matches(Star(SubRule), u) && (v == [] || v[0].S?) && Linked(prev, v)
    decreases |w|
  {
    if w == [] || w[0].S? {
      u, v := [], w;
    } else {
      hide Matches;
      LinkedTail(prev, w);
      var tail := w[1..];
      if tail != [] {
        LinkedTail(U, tail);
      }
      var a, rest := VarsSplit(U, tail);
      SubRuleMatches(a);
      var b;
      b, v := SubStarSplit(U, rest);
      StarMatches(SubRule, [U] + a, b);
      u := [U] + a + b;
      assert w == [U] + tail;
      Regroup([U], a, b, v);
      assert [U] + (a + b) == u;
      LastIsEnough(U, prev, v);
    }
  }

  lemma HeadMatches(head: seq<Kind>, vars: seq<Kind>, subs: seq<Kind>)
    requires head == [S] || head == [S, D]
    requires Matches(VarsRule, vars) && Matches(Star(SubRule), subs)
    ensures Matches(SectionRule, head + (vars + subs))
  {
    OptSymMatches(S, [S]);
    OptSymMatches(D, head[1..]);
    hide Matches;
    CatMatches(Sym(S), [S], Opt(Sym(D)), head[1..]);
    assert head == [S] + head[1..];
    CatMatches(VarsRule, vars, Star(SubRule), subs);
    CatMatches(Cat(Sym(S), Opt(Sym(D))), head, Cat(VarsRule, Star(SubRule)), vars + subs);
  }

  /** The heading of a section with its docstring, and what follows it. */
  lemma HeadSplit(prev: Kind, w: seq<Kind>) returns (head: seq<Kind>, body: seq<Kind>)
    requires Linked(prev, w) && w != [] && w[0].S?
    ensures w == head + body && (head == [S] || head == [S, D])
    ensures var q := head[|head| - 1]; Linked(q, body) && (body != [] ==> !body[0].D?)
  {
    LinkedTail(prev, w);
    hide Linked;
    var tail := w[1..];
    if tail != [] {
      LinkedTail(S, tail);
    }
    if tail != [] && tail[0].D? {
      head, body := [S, D], tail[1..];
      if body != [] {
        LinkedTail(D, body);
      }
    } else {
      head, body := [S], tail;
    }
  }

  lemma {:induction false} FileRuleSplit(prev: Kind, w: seq<Kind>)
    requires Linked(prev, w) && (w == [] || w[0].S?)
    ensures Matches(FileRule, w)
    decreases |w|
  {
    if w != [] {
      hide Matches, Linked, MayFollow;
      var head, body := HeadSplit(prev, w);
      var q := head[|head| - 1];
      var vars, rest := VarsSplit(q, body);
      var subs, next := SubStarSplit(q, rest);
      HeadMatches(head, vars, subs);
      FileRuleSplit(q, next);
      StarMatches(SectionRule, head + (vars + subs), next);
      Regroup(head, vars, subs, next);
    }
  }

  lemma Regroup(a: seq<Kind>, b: seq<Kind>, c: seq<Kind>, d: seq<Kind>)
    ensures a + (b + (c + d)) == a + (b + c) + d
  {
  }

  /** The parser accepts exactly the words of the regular expression. */
  lemma AcceptsTheGrammar(ts: seq<Token>)
    ensures File(ts).Parsed? <==> Matches(FileRule, Kinds(ts))
  {
    AcceptsExactly(ts);
    var ks := Kinds(ts);
    hide Matches, File;
    if WellFormed(ks) {
      if ks != [] {
        LinkedTail(Start, ks);
      }
      FileRuleSplit(Start, ks);
    }
    if Matches(FileRule, ks) {
      FileRuleIsLinked(Start, ks);
    }
  }
}
