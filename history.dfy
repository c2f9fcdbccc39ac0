/** The rolling history of score pairs: at most `MaxHistory` entries, oldest
    first, a new pair recorded only when it differs from the newest one and
    recording is not frozen. */
module ScoreHistory {
  import opened ScoreNormalizer

  /** The capacity of the history. */
  const MaxHistory: nat := 100

  function Abs(x: int): nat {
    if x < 0 then -x else x
  }

  function Last(h: seq<ScorePair>): ScorePair
    requires h != []
  {
    h[|h| - 1]
  }

  /** The change filter: an empty history, or a component that moved by at
      least one point since the newest entry. */
  predicate Changed(h: seq<ScorePair>, p: ScorePair)
    ensures Changed(h, p) <==> h == [] || Last(h) != p
  {
    h == [] || Abs(p.first - Last(h).first) >= 1 || Abs(p.second - Last(h).second) >= 1
  }

  /** The newest `MaxHistory` entries of `s`, in order. */
  function Newest(s: seq<ScorePair>): (w: seq<ScorePair>)
    ensures |w| == if |s| <= MaxHistory then |s| else MaxHistory
    ensures forall i :: 0 <= i < |w| ==> w[i] == s[|s| - |w| + i]
  {
    if |s| <= MaxHistory then s else s[|s| - MaxHistory..]
  }

  /** The history after one tick's append block: append when recording and
      changed, then drop the oldest entry once over capacity. */
  function Record(h: seq<ScorePair>, frozen: bool, p: ScorePair): (r: seq<ScorePair>)
    ensures |h| <= MaxHistory ==> |r| <= MaxHistory
    ensures r == h || (r != [] && Last(r) == p)
  {
    if frozen || !Changed(h, p) then h
    else
      var e := h + [p];
      if |e| > MaxHistory then e[1..] else e
  }

  /** While frozen, a tick leaves the history exactly as it was. */
  lemma RecordFrozen(h: seq<ScorePair>, p: ScorePair)
    ensures Record(h, true, p) == h
  {
  }

  /** When recording, a pair is kept if and only if the history is empty or
      the pair differs from the newest entry, and then the history becomes
      the newest `MaxHistory` entries of the old history followed by the
      pair. */
  lemma RecordWhenRecording(h: seq<ScorePair>, p: ScorePair)
    requires |h| <= MaxHistory
    ensures Record(h, false, p) == if h == [] || Last(h) != p then Newest(h + [p]) else h
  {
    if |h| == MaxHistory && Changed(h, p) {
      assert (h + [p])[1..] == (h + [p])[|h + [p]| - MaxHistory..];
    }
  }

  /** On overflow exactly the oldest entry leaves, and the others keep
      their order. */
  lemma RecordEvictsOldest(h: seq<ScorePair>, p: ScorePair)
    requires |h| == MaxHistory && Changed(h, p)
    ensures Record(h, false, p) == h[1..] + [p]
    ensures |Record(h, false, p)| == MaxHistory
  {
    assert (h + [p])[1..] == h[1..] + [p];
  }

  /** Every percentage lies in [0, 100]. */
  predicate InRange(h: seq<ScorePair>) {
    forall i :: 0 <= i < |h| ==> 0 <= h[i].first <= 100 && 0 <= h[i].second <= 100
  }

  lemma RecordKeepsRange(h: seq<ScorePair>, frozen: bool, p: ScorePair)
    requires InRange(h) && 0 <= p.first <= 100 && 0 <= p.second <= 100
    ensures InRange(Record(h, frozen, p))
  {
  }

  /** The history after a run of ticks, all with the same freeze flag. */
  function RecordAll(h: seq<ScorePair>, frozen: bool, ps: seq<ScorePair>): seq<ScorePair>
    decreases |ps|
  {
    if ps == [] then h else RecordAll(Record(h, frozen, ps[0]), frozen, ps[1..])
  }

  /** No two neighbours are equal. */
  predicate NoRepeats(s: seq<ScorePair>) {
    forall i :: 0 < i < |s| ==> s[i - 1] != s[i]
  }

  /** Freezing then recording any number of pairs leaves the history unchanged. */
  lemma {:induction false} RecordAllFrozen(h: seq<ScorePair>, ps: seq<ScorePair>)
    ensures RecordAll(h, true, ps) == h
  {
    if ps != [] {
      RecordAllFrozen(h, ps[1..]);
    }
  }

  lemma NewestOfNewest(s: seq<ScorePair>, p: ScorePair)
    ensures Newest(Newest(s) + [p]) == Newest(s + [p])
  {
  }

  /** A run of pairs each differing from the one before (the first from the
      newest entry) is recorded in full, and the history is then the newest
      `MaxHistory` entries of everything seen: a FIFO of that capacity. */
  lemma {:induction false} RecordAllChanging(s: seq<ScorePair>, ps: seq<ScorePair>)
    requires NoRepeats(s + ps)
    ensures RecordAll(Newest(s), false, ps) == Newest(s + ps)
    decreases |ps|
  {
    if ps == [] {
      assert s + ps == s;
    } else {
      var p := ps[0];
      var w := Newest(s);
      RecordWhenRecording(w, p);
      if s != [] {
        assert Last(w) == Last(s);
        assert (s + ps)[|s| - 1] == Last(s) && (s + ps)[|s|] == p;
      }
      assert Record(w, false, p) == Newest(s + [p]) by { NewestOfNewest(s, p); }
      var s' := s + [p];
      assert s' + ps[1..] == s + ps;
      RecordAllChanging(s', ps[1..]);
    }
  }

  /** Starting within capacity, a run of changing pairs keeps the last
      `MaxHistory` of old history and run together; after at least
      `MaxHistory` of them the history is full. */
  lemma RecordAllFills(h: seq<ScorePair>, ps: seq<ScorePair>)
    requires |h| <= MaxHistory && NoRepeats(h + ps)
    ensures RecordAll(h, false, ps) == Newest(h + ps)
    ensures |ps| >= MaxHistory ==> |RecordAll(h, false, ps)| == MaxHistory
  {
    RecordAllChanging(h, ps);
  }
}
