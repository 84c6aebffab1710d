/** Exactly which token sequences the Less docstring parser accepts, and where it stops on the others. */
module LessDocLanguage {
  import opened LessDoc

  /** The kinds of tokens, and the start of the file. */
  datatype Kind = Start | S | D | U | Doc | V

  function KindOf(t: Token): Kind {
    match t
    case SectionHeading(_, _) => S
    case SectionDoc(_) => D
    case SubHeading(_) => U
    case VarDoc(_) => Doc
    case Assignment(_, _) => V
  }

  function Kinds(ts: seq<Token>): (ks: seq<Kind>)
    ensures |ks| == |ts| && forall i :: 0 <= i < |ts| ==> ks[i] == KindOf(ts[i])
  {
    seq(|ts|, i requires 0 <= i < |ts| => KindOf(ts[i]))
  }

  /** What may follow what: a file starts with a section, a section docstring follows its heading at once, and no
      variable docstring follows another. */
  predicate MayFollow(a: Kind, b: Kind) {
    !b.Start? && (a.Start? ==> b.S?) && (b.D? ==> a.S?) && !(a.Doc? && b.Doc?)
  }

  function KindBefore(prev: Kind, ks: seq<Kind>, i: nat): Kind
    requires i < |ks|
  {
    if i == 0 then prev else ks[i - 1]
  }

  /** Every kind may follow the one before it; `prev` is before the first. */
  ghost predicate Linked(prev: Kind, ks: seq<Kind>) {
    forall i :: 0 <= i < |ks| ==> MayFollow(KindBefore(prev, ks, i), ks[i])
  }

  ghost predicate WellFormed(ks: seq<Kind>) {
    Linked(Start, ks)
  }

  /** How far a sequence after `prev` is well formed. */
  function GoodPrefix(prev: Kind, ts: seq<Token>): (n: nat)
    ensures n <= |ts|
    decreases |ts|
  {
    if ts == [] || !MayFollow(prev, KindOf(ts[0])) then 0 else 1 + GoodPrefix(KindOf(ts[0]), ts[1..])
  }

  lemma LinkedTail(prev: Kind, ks: seq<Kind>)
    requires ks != []
    ensures Linked(prev, ks) <==> MayFollow(prev, ks[0]) && Linked(ks[0], ks[1..])
  {
    hide MayFollow;
    var tail := ks[1..];
    assert forall i :: 0 <= i < |tail| ==> tail[i] == ks[i + 1] && KindBefore(ks[0], tail, i) == KindBefore(prev, ks, i + 1);
    assert KindBefore(prev, ks, 0) == prev;
    if MayFollow(prev, ks[0]) && Linked(ks[0], tail) {
      forall i | 0 <= i < |ks|
        ensures MayFollow(KindBefore(prev, ks, i), ks[i])
      {
        if i != 0 {
          assert MayFollow(KindBefore(ks[0], tail, i - 1), tail[i - 1]);
        }
      }
    }
  }

  lemma KindsOfTail(ts: seq<Token>, n: nat)
    requires 1 <= n <= |ts|
    ensures Kinds(ts[..n]) != [] && Kinds(ts[..n])[0] == KindOf(ts[0])
    ensures Kinds(ts[..n])[1..] == Kinds(ts[1..][..n - 1])
  {
  }

  /** The prefixes up to that point are well formed, and no longer one is. */
  lemma {:induction false} GoodPrefixIsLongest(prev: Kind, ts: seq<Token>, n: nat)
    requires n <= |ts|
    ensures Linked(prev, Kinds(ts[..n])) <==> n <= GoodPrefix(prev, ts)
    decreases n
  {
    if n != 0 {
      hide Linked, MayFollow;
      GoodPrefixIsLongest(KindOf(ts[0]), ts[1..], n - 1);
      KindsOfTail(ts, n);
      LinkedTail(prev, Kinds(ts[..n]));
      hide Kinds;
    }
  }

  /** From `prev` to `q` the parser read a well-formed stretch of ts, and `rest` is left. */
  predicate Reached(prev: Kind, ts: seq<Token>, q: Kind, rest: seq<Token>) {
    |rest| <= |ts| && GoodPrefix(prev, ts) == |ts| - |rest| + GoodPrefix(q, rest)
  }

  /** Nothing more is left, or it starts with a token for which the caller looks, or it goes wrong at once. */
  predicate StopsAt(q: Kind, rest: seq<Token>) {
    rest == [] || rest[0].SectionHeading? || rest[0].SubHeading? || !MayFollow(q, KindOf(rest[0]))
  }

  /** Variables are read up to a heading, or to the point where the sequence goes wrong. */
  lemma {:induction false} VarsReach(prev: Kind, ts: seq<Token>) returns (q: Kind)
    requires prev.D? || prev.U? || prev.V? || (prev.S? && !StartsSectionDoc(ts))
    ensures Reached(prev, ts, q, Vars(ts).1) && StopsAt(q, Vars(ts).1) && !q.Start?
    decreases |ts|
  {
    var rest := OneVar(ts).1;
    OneVarReads(prev, ts);
    VarsAfter(ts);
    if StartsVar(ts) || (StartsDoc(ts) && StartsVar(ts[1..])) {
      hide Vars, OneVar, MayFollow, GoodPrefix;
      q := VarsReach(V, rest);
    } else {
      hide Vars;
      q := if StartsDoc(ts) then Doc else prev;
    }
  }

  lemma VarsAfter(ts: seq<Token>)
    ensures Vars(ts).1 == if OneVar(ts).0.Some? then Vars(OneVar(ts).1).1 else OneVar(ts).1
  {
    hide OneVar;
  }

  /** One variable, or what is skipped when there is none. */
  lemma OneVarReads(prev: Kind, ts: seq<Token>)
    requires prev.D? || prev.U? || prev.V? || (prev.S? && !StartsSectionDoc(ts))
    ensures OneVar(ts).0.Some? <==> StartsVar(ts) || (StartsDoc(ts) && StartsVar(ts[1..]))
    ensures OneVar(ts).0.Some? ==> Reached(prev, ts, V, OneVar(ts).1)
    ensures OneVar(ts).0.None? ==> Reached(prev, ts, if StartsDoc(ts) then Doc else prev, OneVar(ts).1)
  {
    if StartsDoc(ts) && StartsVar(ts[1..]) {
      assert Reached(Doc, ts[1..], V, OneVar(ts).1);
    }
  }

  lemma {:induction false} SubSectionsReach(prev: Kind, ts: seq<Token>) returns (q: Kind)
    requires StopsAt(prev, ts) && !prev.Start?
    ensures Reached(prev, ts, q, SubSections(ts).1) && !q.Start?
    ensures var rest := SubSections(ts).1; rest == [] || rest[0].SectionHeading? || !MayFollow(q, KindOf(rest[0]))
    decreases |ts|
  {
    if StartsSub(ts) {
      var rest := Vars(ts[1..]).1;
      q := VarsReach(U, ts[1..]);
      hide Vars;
      q := SubSectionsReach(q, rest);
    } else {
      q := prev;
    }
  }

  /** A section is read up to the next section heading, or to the point where the sequence goes wrong. */
  lemma OneSectionReaches(ts: seq<Token>, prev: Kind) returns (q: Kind)
    requires ts != [] && ts[0].SectionHeading?
    ensures Reached(prev, ts, q, OneSection(ts).1) && !q.Start?
    ensures var rest := OneSection(ts).1; rest == [] || rest[0].SectionHeading? || !MayFollow(q, KindOf(rest[0]))
  {
    var body := AfterDoc(ts[1..]);
    q := if StartsSectionDoc(ts[1..]) then D else S;
    assert Reached(prev, ts, q, body);
    if StartsSub(body) {
      q := SubSectionsReach(q, body);
    } else {
      var rest := Vars(body).1;
      q := VarsReach(q, body);
      q := SubSectionsReach(q, rest);
    }
  }

  /** The parser accepts exactly the well-formed sequences; every other one it refuses with "Expected section
      heading" and the first token that no well-formed sequence could have there, and with no other error. */
  lemma {:induction false} FileStopsAtFirstError(ts: seq<Token>, prev: Kind)
    requires prev.Start? || ts == [] || ts[0].SectionHeading? || !MayFollow(prev, KindOf(ts[0]))
    ensures var n := GoodPrefix(prev, ts);
      if n == |ts| then File(ts).Parsed? else File(ts) == ExpectedSection(ts[n])
    decreases |ts|
  {
    if ts != [] && ts[0].SectionHeading? {
      var rest := OneSection(ts).1;
      var q := OneSectionReaches(ts, prev);
      OneSectionLeaves(ts);
      hide OneSection, GoodPrefix;
      FileStopsAtFirstError(rest, q);
    }
  }

  lemma AcceptsExactly(ts: seq<Token>)
    ensures File(ts).Parsed? <==> WellFormed(Kinds(ts))
    ensures File(ts).IsFailure() ==>
              exists n :: 0 <= n < |ts| && File(ts) == ExpectedSection(ts[n])
                && WellFormed(Kinds(ts[..n])) && !WellFormed(Kinds(ts[..n + 1]))
  {
    FileStopsAtFirstError(ts, Start);
    var n := GoodPrefix(Start, ts);
    GoodPrefixIsLongest(Start, ts, |ts|);
    GoodPrefixIsLongest(Start, ts, n);
    assert ts[..|ts|] == ts;
    if n < |ts| {
      GoodPrefixIsLongest(Start, ts, n + 1);
    }
  }
}
