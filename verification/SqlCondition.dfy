/** Conditions of a SQL WHERE clause as tokens: parsing with AND binding tighter than OR, and three-valued logic. */
module SqlCondition {
  import opened Seqs

  datatype Token<A> = And | Or | Open | Close | Test(atom: A)

  datatype Prim<A> = Atom(atom: A) | Paren(inner: Disj<A>)
  datatype Conj<A> = One(p: Prim<A>) | AndThen(p: Prim<A>, more: Conj<A>)
  datatype Disj<A> = Just(c: Conj<A>) | OrElse(c: Conj<A>, others: Disj<A>)

  function PrintPrim<A>(p: Prim<A>): seq<Token<A>> {
    match p
    case Atom(a) => [Test(a)]
    case Paren(d) => [Open] + PrintDisj(d) + [Close]
  }

  function PrintConj<A>(c: Conj<A>): seq<Token<A>> {
    match c
    case One(p) => PrintPrim(p)
    case AndThen(p, more) => PrintPrim(p) + ([And] + PrintConj(more))
  }

  function PrintDisj<A>(d: Disj<A>): seq<Token<A>> {
    match d
    case Just(c) => PrintConj(c)
    case OrElse(c, others) => PrintConj(c) + ([Or] + PrintDisj(others))
  }

  function ParsePrim<A>(ts: seq<Token<A>>): (r: Option<(Prim<A>, seq<Token<A>>)>)
    ensures r.Some? ==> |r.value.1| < |ts|
    decreases |ts|, 0
  {
    if ts == [] then None
    else if ts[0].Test? then Some((Atom(ts[0].atom), ts[1..]))
    else if ts[0].Open? then
      match ParseDisj(ts[1..])
      case None => None
      case Some((d, rest)) => if rest != [] && rest[0].Close? then Some((Paren(d), rest[1..])) else None
    else None
  }

  function ParseConj<A>(ts: seq<Token<A>>): (r: Option<(Conj<A>, seq<Token<A>>)>)
    ensures r.Some? ==> |r.value.1| < |ts|
    decreases |ts|, 1
  {
    match ParsePrim(ts)
    case None => None
    case Some((p, rest)) =>
      if rest != [] && rest[0].And? then
        match ParseConj(rest[1..])
        case None => None
        case Some((more, left)) => Some((AndThen(p, more), left))
      else Some((One(p), rest))
  }

  function ParseDisj<A>(ts: seq<Token<A>>): (r: Option<(Disj<A>, seq<Token<A>>)>)
    ensures r.Some? ==> |r.value.1| < |ts|
    decreases |ts|, 2
  {
    match ParseConj(ts)
    case None => None
    case Some((c, rest)) =>
      if rest != [] && rest[0].Or? then
        match ParseDisj(rest[1..])
        case None => None
        case Some((others, left)) => Some((OrElse(c, others), left))
      else Some((Just(c), rest))
  }

  /** The condition the whole text stands for, if it is one. */
  function Parse<A>(ts: seq<Token<A>>): Option<Disj<A>> {
    match ParseDisj(ts)
    case None => None
    case Some((d, rest)) => if rest == [] then Some(d) else None
  }

  /** What may follow a conjunction and a condition. */
  ghost predicate EndsConj<A>(rest: seq<Token<A>>) {
    rest == [] || !rest[0].And?
  }

  ghost predicate EndsDisj<A>(rest: seq<Token<A>>) {
    rest == [] || rest[0].Close?
  }

  lemma ParenParsed<A>(d: Disj<A>, rest: seq<Token<A>>)
    requires ParseDisj(PrintDisj(d) + ([Close] + rest)) == Some((d, [Close] + rest))
    ensures ParsePrim(([Open] + PrintDisj(d) + [Close]) + rest) == Some((Paren(d), rest))
  {
    hide ParseDisj, PrintDisj;
    var ts := ([Open] + PrintDisj(d) + [Close]) + rest;
    assert ts[1..] == PrintDisj(d) + ([Close] + rest);
    assert ([Close] + rest)[1..] == rest;
  }

  lemma ConjParsed<A>(p: Prim<A>, more: Conj<A>, rest: seq<Token<A>>, ts: seq<Token<A>>)
    requires ParsePrim(ts) == Some((p, [And] + (PrintConj(more) + rest)))
    requires ParseConj(PrintConj(more) + rest) == Some((more, rest))
    ensures ParseConj(ts) == Some((AndThen(p, more), rest))
  {
    hide ParsePrim, PrintConj;
    assert ([And] + (PrintConj(more) + rest))[1..] == PrintConj(more) + rest;
  }

  lemma DisjParsed<A>(c: Conj<A>, others: Disj<A>, rest: seq<Token<A>>, ts: seq<Token<A>>)
    requires ParseConj(ts) == Some((c, [Or] + (PrintDisj(others) + rest)))
    requires ParseDisj(PrintDisj(others) + rest) == Some((others, rest))
    ensures ParseDisj(ts) == Some((OrElse(c, others), rest))
  {
    hide ParseConj, PrintDisj;
    assert ([Or] + (PrintDisj(others) + rest))[1..] == PrintDisj(others) + rest;
  }

  lemma {:induction false} PrintedPrim<A>(p: Prim<A>, rest: seq<Token<A>>)
    ensures ParsePrim(PrintPrim(p) + rest) == Some((p, rest))
    decreases p
  {
    match p
    case Atom(a) =>
      assert ([Test(a)] + rest)[1..] == rest;
    case Paren(d) =>
      PrintedDisj(d, [Close] + rest);
      ParenParsed(d, rest);
  }

  lemma {:induction false} PrintedConj<A>(c: Conj<A>, rest: seq<Token<A>>)
    requires EndsConj(rest)
    ensures ParseConj(PrintConj(c) + rest) == Some((c, rest))
    decreases c
  {
    hide ParsePrim, PrintPrim;
    match c
    case One(p) => PrintedPrim(p, rest);
    case AndThen(p, more) =>
      assert PrintConj(c) + rest == PrintPrim(p) + ([And] + (PrintConj(more) + rest));
      PrintedPrim(p, [And] + (PrintConj(more) + rest));
      PrintedConj(more, rest);
      ConjParsed(p, more, rest, PrintConj(c) + rest);
  }

  lemma {:induction false} PrintedDisj<A>(d: Disj<A>, rest: seq<Token<A>>)
    requires EndsDisj(rest)
    ensures ParseDisj(PrintDisj(d) + rest) == Some((d, rest))
    decreases d
  {
    hide ParseConj, PrintConj;
    match d
    case Just(c) => PrintedConj(c, rest);
    case OrElse(c, others) =>
      assert PrintDisj(d) + rest == PrintConj(c) + ([Or] + (PrintDisj(others) + rest));
      PrintedConj(c, [Or] + (PrintDisj(others) + rest));
      PrintedDisj(others, rest);
      DisjParsed(c, others, rest, PrintDisj(d) + rest);
  }

  /** Parsing inverts printing. */
  lemma ParsePrinted<A>(d: Disj<A>)
    ensures Parse(PrintDisj(d)) == Some(d)
  {
    PrintedDisj(d, []);
    assert PrintDisj(d) + [] == PrintDisj(d);
  }

  // ---- three-valued logic ----

  datatype Truth = True | False | Unknown

  function Both(a: Truth, b: Truth): Truth {
    if a == False || b == False then False else if a == True && b == True then True else Unknown
  }

  function Either(a: Truth, b: Truth): Truth {
    if a == True || b == True then True else if a == False && b == False then False else Unknown
  }

  function EvalPrim<A>(p: Prim<A>, f: A -> Truth): Truth {
    match p
    case Atom(a) => f(a)
    case Paren(d) => EvalDisj(d, f)
  }

  function EvalConj<A>(c: Conj<A>, f: A -> Truth): Truth {
    match c
    case One(p) => EvalPrim(p, f)
    case AndThen(p, more) => Both(EvalPrim(p, f), EvalConj(more, f))
  }

  function EvalDisj<A>(d: Disj<A>, f: A -> Truth): Truth {
    match d
    case Just(c) => EvalConj(c, f)
    case OrElse(c, others) => Either(EvalConj(c, f), EvalDisj(others, f))
  }

  /** WHERE keeps a row only if the condition is true, not if it is unknown. */
  predicate Keeps<A>(ts: seq<Token<A>>, f: A -> Truth) {
    match Parse(ts)
    case Some(d) => EvalDisj(d, f) == True
    case None => false
  }

  // ---- conjunctions of tests ----

  /** Tests joined by AND. */
  function Joined<A>(atoms: seq<A>): seq<Token<A>> {
    if atoms == [] then []
    else if |atoms| == 1 then [Test(atoms[0])]
    else Joined(atoms[..|atoms| - 1]) + [And, Test(atoms[|atoms| - 1])]
  }

  /** Tests, and then one more primary condition. */
  function Ending<A>(atoms: seq<A>, p: Prim<A>): Conj<A> {
    if atoms == [] then One(p) else AndThen(Atom(atoms[0]), Ending(atoms[1..], p))
  }

  function AllOf<A>(atoms: seq<A>): Conj<A>
    requires atoms != []
  {
    Ending(atoms[..|atoms| - 1], Atom(atoms[|atoms| - 1]))
  }

  lemma {:induction false} JoinedCons<A>(a: A, atoms: seq<A>)
    requires atoms != []
    ensures Joined([a] + atoms) == [Test(a), And] + Joined(atoms)
  {
    if |atoms| == 1 {
      assert ([a] + atoms)[..1] == [a];
      assert [Test(a)] + [And, Test(atoms[0])] == [Test(a), And] + [Test(atoms[0])];
    } else {
      var init, last := atoms[..|atoms| - 1], atoms[|atoms| - 1];
      JoinedCons(a, init);
      assert ([a] + atoms)[..|atoms|] == [a] + init;
      assert ([Test(a), And] + Joined(init)) + [And, Test(last)]
          == [Test(a), And] + (Joined(init) + [And, Test(last)]);
    }
  }

  lemma {:induction false} PrintEnding<A>(atoms: seq<A>, p: Prim<A>)
    ensures PrintConj(Ending(atoms, p)) == (if atoms == [] then [] else Joined(atoms) + [And]) + PrintPrim(p)
  {
    hide PrintPrim;
    if atoms != [] {
      PrintEnding(atoms[1..], p);
      var a := atoms[0];
      assert PrintConj(Ending(atoms, p)) == [Test(a)] + ([And] + PrintConj(Ending(atoms[1..], p))) by {
        assert PrintPrim(Atom(a)) == [Test(a)] by { PrintAtom(a); }
      }
      if |atoms| > 1 {
        assert [a] + atoms[1..] == atoms;
        JoinedCons(a, atoms[1..]);
      }
      hide *;
    }
  }

  lemma PrintAtom<A>(a: A)
    ensures PrintPrim(Atom(a)) == [Test(a)]
  {
  }

  lemma PrintAll<A>(atoms: seq<A>)
    requires atoms != []
    ensures PrintConj(AllOf(atoms)) == Joined(atoms)
  {
    hide Ending, PrintConj;
    PrintEnding(atoms[..|atoms| - 1], Atom(atoms[|atoms| - 1]));
  }

  lemma {:induction false} EvalEnding<A>(atoms: seq<A>, p: Prim<A>, f: A -> Truth)
    ensures EvalConj(Ending(atoms, p), f) == True
            <==> (forall i :: 0 <= i < |atoms| ==> f(atoms[i]) == True) && EvalPrim(p, f) == True
  {
    if atoms != [] {
      EvalEnding(atoms[1..], p, f);
      assert forall i :: 0 < i < |atoms| ==> atoms[1..][i - 1] == atoms[i];
    }
  }

  lemma EvalAll<A>(atoms: seq<A>, f: A -> Truth)
    requires atoms != []
    ensures EvalConj(AllOf(atoms), f) == True <==> forall i :: 0 <= i < |atoms| ==> f(atoms[i]) == True
  {
    hide EvalConj, Ending;
    EvalEnding(atoms[..|atoms| - 1], Atom(atoms[|atoms| - 1]), f);
  }
}
