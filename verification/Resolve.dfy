/** Picking the authoritative chain: the highest generation wins, and within it the rules of `Branches`. */
module Resolve {
  import opened Basics
  import opened Events
  import opened ChainFacts
  import opened ChainHistory
  import opened Branches

  type Chain = seq<ChainEntry>

  datatype BranchResult = Resolved(winner: Chain, superseded: nat) | NoValidBranch | Duplicitous(duplicity: Duplicity)

  // ---------------------------------------------------------------- what the outcome means

  ghost predicate HasTopGen(c: Suite, did: Did, chains: seq<Chain>, gen: int) {
    && (exists chain :: chain in chains && Folds(c, did, chain) && HeadState(c, did, chain).gen == gen)
    && (forall chain :: chain in chains && Folds(c, did, chain) ==> HeadState(c, did, chain).gen <= gen)
  }

  ghost function HistoriesAt(c: Suite, did: Did, chains: seq<Chain>, gen: int): set<History> {
    set chain | chain in chains && Folds(c, did, chain) && HeadState(c, did, chain).gen == gen :: Top(c, did, chain)
  }

  /** The outcome on the chains presented: the verdict on the histories of the highest generation any of
      them folds to. */
  ghost predicate IsOutcome(c: Suite, did: Did, chains: seq<Chain>, v: Verdict) {
    if forall chain :: chain in chains ==> !Folds(c, did, chain) then v == NoBranch
    else exists gen :: HasTopGen(c, did, chains, gen) && IsVerdict(HistoriesAt(c, did, chains, gen), v)
  }

  ghost function VerdictOf(c: Suite, did: Did, r: BranchResult): Verdict
    requires r.Resolved? ==> Folds(c, did, r.winner)
  {
    match r
    case Resolved(winner, _) => Wins(Top(c, did, winner))
    case NoValidBranch => NoBranch
    case Duplicitous(report) => Forks(report)
  }

  lemma RivalsAt(c: Suite, did: Did, chains: seq<Chain>, gen: int)
    requires Sound(c)
    ensures Rivals(HistoriesAt(c, did, chains, gen))
  {
    hide Folds, Top, HeadState, OneHistory, Sound;
    var s := HistoriesAt(c, did, chains, gen);
    forall a, b | a in s && b in s ensures OneHistory(a, b) {
      var x: Chain :| x in chains && Folds(c, did, x) && Top(c, did, x) == a;
      var y: Chain :| y in chains && Folds(c, did, y) && Top(c, did, y) == b;
      TopsShareHistory(c, did, x, y);
    }
  }

  /** Every order of the chains, and any repetition of them, has the same outcome: the same verdict, the
      same winning history to its head, the same report of a fork. */
  lemma {:induction false} ArrivalOrder(c: Suite, did: Did, a: seq<Chain>, b: seq<Chain>, v: Verdict, w: Verdict)
    requires Sound(c) && Elems(a) == Elems(b) && IsOutcome(c, did, a, v) && IsOutcome(c, did, b, w)
    ensures v == w
  {
    hide Folds, Top, HeadState, Rivals, IsVerdict, Sound;
    assert forall chain :: chain in a <==> chain in b by {
      assert forall chain :: chain in a <==> chain in Elems(a);
      assert forall chain :: chain in b <==> chain in Elems(b);
    }
    if exists chain :: chain in a && Folds(c, did, chain) {
      var g :| HasTopGen(c, did, a, g) && IsVerdict(HistoriesAt(c, did, a, g), v);
      var h :| HasTopGen(c, did, b, h) && IsVerdict(HistoriesAt(c, did, b, h), w);
      assert g == h;
      assert HistoriesAt(c, did, a, g) == HistoriesAt(c, did, b, g);
      RivalsAt(c, did, a, g);
      OneVerdict(HistoriesAt(c, did, a, g), v, w);
    }
  }

  /** A winner has the highest generation, and every rival of that generation is a prefix of it from the
      generation's first event. */
  lemma {:induction false} WinnerExtends(c: Suite, did: Did, chains: seq<Chain>, winner: Chain, rival: Chain)
    requires Sound(c) && Folds(c, did, winner) && winner in chains && IsOutcome(c, did, chains, Wins(Top(c, did, winner)))
    requires rival in chains && Folds(c, did, rival)
    ensures HeadState(c, did, rival).gen <= HeadState(c, did, winner).gen
    ensures HeadState(c, did, rival).gen == HeadState(c, did, winner).gen ==> Top(c, did, rival) <= Top(c, did, winner)
  {
    hide Folds, Top, HeadState, Sound, ForkedAt;
    var gen :| HasTopGen(c, did, chains, gen) && IsVerdict(HistoriesAt(c, did, chains, gen), Wins(Top(c, did, winner)));
    var x: Chain :| x in chains && Folds(c, did, x) && HeadState(c, did, x).gen == gen && Top(c, did, x) == Top(c, did, winner);
    TopMeans(c, did, x);
    TopMeans(c, did, winner);
    if HeadState(c, did, rival).gen == gen {
      assert Top(c, did, rival) in HistoriesAt(c, did, chains, gen);
    }
  }

  /** A fork is reported exactly when two chains of the highest generation differ at a position of it that
      both hold. */
  lemma {:induction false} ForkReportedIff(c: Suite, did: Did, chains: seq<Chain>, v: Verdict, gen: int)
    requires IsOutcome(c, did, chains, v) && HasTopGen(c, did, chains, gen)
    ensures v.Forks? <==> exists x, y, j: nat ::
      x in chains && y in chains && Folds(c, did, x) && Folds(c, did, y)
      && HeadState(c, did, x).gen == gen && HeadState(c, did, y).gen == gen && DifferAt(Top(c, did, x), Top(c, did, y), j)
  {
    hide Folds, Top, HeadState, DifferAt, IsVerdict;
    var s := HistoriesAt(c, did, chains, gen);
    assert IsVerdict(s, v);
    ForkIffDiffer(s, v);
    if exists j: nat :: ForkedAt(s, j) {
      var j: nat :| ForkedAt(s, j);
      var a: History, b: History :| a in s && b in s && DifferAt(a, b, j);
      var x: Chain :| x in chains && Folds(c, did, x) && HeadState(c, did, x).gen == gen && Top(c, did, x) == a;
      var y: Chain :| y in chains && Folds(c, did, y) && HeadState(c, did, y).gen == gen && Top(c, did, y) == b;
    }
    if x: Chain, y: Chain, j: nat :|
      x in chains && y in chains && Folds(c, did, x) && Folds(c, did, y)
      && HeadState(c, did, x).gen == gen && HeadState(c, did, y).gen == gen && DifferAt(Top(c, did, x), Top(c, did, y), j)
    {
      assert Top(c, did, x) in s && Top(c, did, y) in s;
      assert ForkedAt(s, j);
    }
  }
}
