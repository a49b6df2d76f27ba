/** What choosing between rival histories of one generation means, as a matter of the set of them. A
    history is the states of a generation, each chained to the one before. */
module Branches {
  import opened Events
  import opened ChainHistory

  type History = seq<KeyState>

  /** Where a fork shows: the position, and the two least digests that stand there. */
  datatype Duplicity = Duplicity(gen: int, sequence: int, first: Digest, second: Digest)

  datatype Verdict = NoBranch | Wins(history: History) | Forks(duplicity: Duplicity)

  /** Histories of one generation, no two with the same head, sharing whatever they share a digest of. */
  ghost predicate Rivals(s: set<History>) {
    && (forall a :: a in s ==> a != [])
    && (forall a, b :: a in s && b in s ==> OneHistory(a, b))
  }

  /** Both hold position `j` and differ there. */
  predicate DifferAt(a: History, b: History, j: nat) {
    j < |a| && j < |b| && a[j].digest != b[j].digest
  }

  ghost predicate ForkedAt(s: set<History>, j: nat) {
    exists a: History, b: History :: a in s && b in s && DifferAt(a, b, j)
  }

  /** The first position two of them hold and differ at. */
  ghost predicate FirstFork(s: set<History>, j: nat) {
    ForkedAt(s, j) && forall i: nat :: i < j ==> !ForkedAt(s, i)
  }

  ghost function DigestsAt(s: set<History>, j: nat): set<Digest> {
    set a: History | a in s && j < |a| :: a[j].digest
  }

  /** The two least of a set. */
  ghost predicate TwoLeast(digests: set<Digest>, first: Digest, second: Digest) {
    && first in digests && second in digests && first < second
    && (forall d :: d in digests && d != first ==> second <= d)
  }

  ghost predicate Reports(s: set<History>, j: nat, report: Duplicity) {
    && TwoLeast(DigestsAt(s, j), report.first, report.second)
    && exists a: History :: (a in s && j < |a| && a[j].digest == report.first && a[j].gen == report.gen && a[j].sequence == report.sequence)
  }

  /** The verdict on a set of rivals: the one every other is a prefix of, or where they first fork. */
  ghost predicate IsVerdict(s: set<History>, v: Verdict) {
    match v
    case NoBranch => s == {}
    case Wins(w) => w in s && (forall j: nat :: !ForkedAt(s, j)) && (forall a :: a in s ==> a <= w)
    case Forks(report) => exists j: nat :: FirstFork(s, j) && Reports(s, j, report)
  }

  /** A fork is reported exactly when two of the histories differ at a position both hold. */
  lemma ForkIffDiffer(s: set<History>, v: Verdict)
    requires IsVerdict(s, v)
    ensures v.Forks? <==> exists j: nat :: ForkedAt(s, j)
  {
    hide DifferAt, Reports;
  }
  /** There is one verdict on a set of rivals, so none of it hangs on how they were put in order. */
  lemma OneVerdict(s: set<History>, v: Verdict, w: Verdict)
    requires Rivals(s) && IsVerdict(s, v) && IsVerdict(s, w)
    ensures v == w
  {
    hide OneHistory, DifferAt, DigestsAt, TwoLeast;
    ForkIffDiffer(s, v);
    ForkIffDiffer(s, w);
    if v.Forks? && w.Forks? {
      var i: nat :| FirstFork(s, i) && Reports(s, i, v.duplicity);
      var j: nat :| FirstFork(s, j) && Reports(s, j, w.duplicity);
      assert i == j;
      OneReport(s, i, v.duplicity, w.duplicity);
    }
  }

  lemma OneReport(s: set<History>, j: nat, a: Duplicity, b: Duplicity)
    requires Rivals(s) && Reports(s, j, a) && Reports(s, j, b)
    ensures a == b
  {
    var x: History :| x in s && j < |x| && x[j].digest == a.first && x[j].gen == a.gen && x[j].sequence == a.sequence;
    var y: History :| y in s && j < |y| && y[j].digest == b.first && y[j].gen == b.gen && y[j].sequence == b.sequence;
    assert a.first == b.first && a.second == b.second;
    assert OneHistory(x, y) && x[..j + 1] == y[..j + 1];
    assert x[j] == x[..j + 1][j] == y[j];
  }
}
