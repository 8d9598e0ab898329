/**
  Reading a histogram while it is being written to (internal/metrics/histogram.go, exposition.go).
  An observation adds to the count and then, in a second step, to its bucket; a scrape reads the
  buckets one after the other and then the count. All of these interleave freely.
 */
module Scrape {
  import opened Histogram

  /** `before` remembers which observations were complete when the scrape began. */
  datatype Reader =
    | Idle
    | Reading(before: set<nat>, read: seq<nat>)
    | Done(before: set<nat>, read: seq<nat>, total: nat)

  /** Observations are numbered; `started` gives the bucket of each, `landed` are those it has reached. */
  datatype State = State(count: nat, counts: seq<nat>, started: map<nat, nat>, landed: set<nat>, reader: Reader)

  datatype Event = AddCount(id: nat, bucket: nat) | AddBucket(id: nat) | Begin | ReadNext | ReadCount

  ghost predicate Initial(s: State) {
    && s.count == 0 && s.started == map[] && s.landed == {} && s.reader == Idle
    && forall i :: 0 <= i < |s.counts| ==> s.counts[i] == 0
  }

  predicate Enabled(s: State, e: Event) {
    match e
    case AddCount(id, bucket) => id !in s.started && bucket < |s.counts|
    case AddBucket(id) => id in s.started && id !in s.landed && s.started[id] < |s.counts|
    case Begin => !s.reader.Reading?
    case ReadNext => s.reader.Reading? && |s.reader.read| < |s.counts|
    case ReadCount => s.reader.Reading? && |s.reader.read| == |s.counts|
  }

  function Step(s: State, e: Event): State
    requires Enabled(s, e)
  {
    match e
    case AddCount(id, bucket) => s.(count := s.count + 1, started := s.started[id := bucket])
    case AddBucket(id) =>
      var i := s.started[id];
      s.(counts := s.counts[i := s.counts[i] + 1], landed := s.landed + {id})
    case Begin => s.(reader := Reading(s.landed, []))
    case ReadNext => s.(reader := Reading(s.reader.before, s.reader.read + [s.counts[|s.reader.read|]]))
    case ReadCount => s.(reader := Done(s.reader.before, s.reader.read, s.count))
  }

  ghost predicate IsRun(s: State, t: seq<Event>)
    decreases |t|
  {
    t == [] || (Enabled(s, t[0]) && IsRun(Step(s, t[0]), t[1..]))
  }

  function After(s: State, t: seq<Event>): State
    requires IsRun(s, t)
    decreases |t|
  {
    if t == [] then s else After(Step(s, t[0]), t[1..])
  }

  // ---------------------------------------------------------------- what every step keeps

  /** Of these observations, those in bucket i. */
  ghost function In(started: map<nat, nat>, ids: set<nat>, i: nat): set<nat> {
    set id | id in ids && id in started && started[id] == i
  }

  /** Of these observations, those in the first k buckets. */
  ghost function Below(started: map<nat, nat>, ids: set<nat>, k: nat): set<nat> {
    set id | id in ids && id in started && started[id] < k
  }

  ghost predicate Exact(s: State) {
    && s.landed <= s.started.Keys && s.count == |s.started|
    && forall i: nat :: i < |s.counts| ==> s.counts[i] == |In(s.started, s.landed, i)|
  }

  /** A bucket that was read holds what was complete before, and nothing that has not landed since. */
  ghost predicate Within(s: State, before: set<nat>, read: seq<nat>) {
    && before <= s.landed && |read| <= |s.counts|
    && forall i: nat :: i < |read| ==> |In(s.started, before, i)| <= read[i] <= |In(s.started, s.landed, i)|
  }

  ghost predicate ReaderOk(s: State) {
    match s.reader
    case Idle => true
    case Reading(before, read) => Within(s, before, read)
    case Done(before, read, total) =>
      Within(s, before, read) && |read| == |s.counts| && Sum(read) <= total <= |s.started|
  }

  ghost predicate Buckets(s: State) {
    forall id :: id in s.started ==> s.started[id] < |s.counts|
  }

  ghost predicate Inv(s: State) {
    Exact(s) && ReaderOk(s) && Buckets(s)
  }

  lemma InSubset(started: map<nat, nat>, a: set<nat>, b: set<nat>, i: nat)
    requires a <= b
    ensures |In(started, a, i)| <= |In(started, b, i)|
  {
    Smaller(In(started, a, i), In(started, b, i));
  }

  lemma Smaller(a: set<nat>, b: set<nat>)
    requires a <= b
    ensures |a| <= |b|
  {
    assert b == a + (b - a);
  }

  lemma BelowStep(started: map<nat, nat>, ids: set<nat>, k: nat)
    ensures |Below(started, ids, k + 1)| == |Below(started, ids, k)| + |In(started, ids, k)|
  {
    assert Below(started, ids, k + 1) == Below(started, ids, k) + In(started, ids, k);
    assert Below(started, ids, k) !! In(started, ids, k);
  }

  /** So the sum over the first k buckets lies between the same two counts. */
  lemma {:induction false} SumWithin(s: State, before: set<nat>, read: seq<nat>, k: nat)
    requires Within(s, before, read) && k <= |read|
    ensures |Below(s.started, before, k)| <= Sum(read[..k]) <= |Below(s.started, s.landed, k)|
    decreases k
  {
    if k == 0 {
      assert Below(s.started, before, 0) == {} && Below(s.started, s.landed, 0) == {};
    } else {
      SumWithin(s, before, read, k - 1);
      BelowStep(s.started, before, k - 1);
      BelowStep(s.started, s.landed, k - 1);
      assert read[..k][..k - 1] == read[..k - 1];
    }
  }

  lemma AddCountKeeps(s: State, id: nat, bucket: nat)
    requires Inv(s) && Enabled(s, AddCount(id, bucket))
    ensures Inv(Step(s, AddCount(id, bucket)))
  {
    var r := Step(s, AddCount(id, bucket));
    assert r.started.Keys == s.started.Keys + {id};
    assert |r.started.Keys| == |r.started| && |s.started.Keys| == |s.started|;
    forall ids: set<nat>, i: nat | ids <= s.landed
      ensures In(r.started, ids, i) == In(s.started, ids, i)
    {
    }
  }

  lemma AddBucketKeeps(s: State, id: nat)
    requires Inv(s) && Enabled(s, AddBucket(id))
    ensures Inv(Step(s, AddBucket(id)))
  {
    var r := Step(s, AddBucket(id));
    forall i: nat
      ensures |In(s.started, r.landed, i)| == |In(s.started, s.landed, i)| + if i == s.started[id] then 1 else 0
    {
      InGrows(s.started, s.landed, id, i);
    }
  }

  lemma InGrows(started: map<nat, nat>, ids: set<nat>, id: nat, i: nat)
    requires id in started && id !in ids
    ensures |In(started, ids + {id}, i)| == |In(started, ids, i)| + if i == started[id] then 1 else 0
  {
    assert In(started, ids + {id}, i) == if i == started[id] then In(started, ids, i) + {id} else In(started, ids, i);
  }

  lemma ReadNextKeeps(s: State)
    requires Inv(s) && Enabled(s, ReadNext)
    ensures Inv(Step(s, ReadNext))
  {
    InSubset(s.started, s.reader.before, s.landed, |s.reader.read|);
  }

  lemma ReadCountKeeps(s: State)
    requires Inv(s) && Enabled(s, ReadCount)
    ensures Inv(Step(s, ReadCount))
  {
    var read := s.reader.read;
    SumWithin(s, s.reader.before, read, |read|);
    assert read[..|read|] == read;
    Smaller(Below(s.started, s.landed, |read|), s.started.Keys);
    assert |s.started.Keys| == |s.started|;
  }

  lemma StepKeeps(s: State, e: Event)
    requires Inv(s) && Enabled(s, e)
    ensures Inv(Step(s, e)) && |Step(s, e).counts| == |s.counts|
  {
    match e
    case AddCount(id, bucket) => AddCountKeeps(s, id, bucket);
    case AddBucket(id) => AddBucketKeeps(s, id);
    case Begin =>
    case ReadNext => ReadNextKeeps(s);
    case ReadCount => ReadCountKeeps(s);
  }

  lemma {:induction false} RunKeeps(s: State, t: seq<Event>)
    requires Inv(s) && IsRun(s, t)
    ensures Inv(After(s, t))
    decreases |t|
  {
    if t != [] {
      StepKeeps(s, t[0]);
      RunKeeps(Step(s, t[0]), t[1..]);
    }
  }

  lemma InitialInv(s: State)
    requires Initial(s)
    ensures Inv(s)
  {
    forall i: nat
      ensures In(s.started, s.landed, i) == {}
    {
    }
  }

  /**
    Whatever observations run alongside, each exported bucket counts at least the observations that
    were complete when the scrape began and at most those complete by now, the exported buckets
    never decrease, and +Inf never exceeds the exported count.
   */
  lemma ScrapeConsistent(s: State, t: seq<Event>, j: nat, k: nat)
    requires Initial(s) && IsRun(s, t) && After(s, t).reader.Done? && j <= k <= |After(s, t).counts|
    ensures var r := After(s, t);
            && |r.reader.read| == |r.counts|
            && |Below(r.started, r.reader.before, k)| <= Sum(r.reader.read[..k]) <= |Below(r.started, r.landed, k)|
            && Sum(r.reader.read[..j]) <= Sum(r.reader.read[..k]) <= Sum(r.reader.read) <= r.reader.total
  {
    InitialInv(s);
    RunKeeps(s, t);
    var r := After(s, t);
    SumWithin(r, r.reader.before, r.reader.read, k);
    SumPrefix(r.reader.read, k);
    SumPrefix(r.reader.read[..k], j);
    assert r.reader.read[..k][..j] == r.reader.read[..j];
  }

  lemma {:induction false} SumPrefix(s: seq<nat>, k: nat)
    requires k <= |s|
    ensures Sum(s[..k]) <= Sum(s)
    decreases |s|
  {
    if k == |s| {
      assert s[..k] == s;
    } else {
      SumPrefix(s[..|s| - 1], k);
      assert s[..|s| - 1][..k] == s[..k];
    }
  }

  /** What a scrape remembers as complete is what was when it began. */
  lemma {:induction false} BeganWith(s: State, t: seq<Event>, k: nat)
    requires IsRun(s, t) && k < |t| && t[k] == Begin && Begin !in t[k + 1..]
    ensures IsRun(s, t[..k]) && !After(s, t).reader.Idle? && After(s, t).reader.before == After(s, t[..k]).landed
    decreases |t|
  {
    var r := Step(s, t[0]);
    if k == 0 {
      assert t[..0] == [];
      KeepsBefore(r, t[1..]);
    } else {
      assert t[1..][k - 1] == Begin && t[1..][k..] == t[k + 1..];
      BeganWith(r, t[1..], k - 1);
      assert t[..k][1..] == t[1..][..k - 1] && t[..k][0] == t[0];
    }
  }

  lemma {:induction false} KeepsBefore(s: State, t: seq<Event>)
    requires IsRun(s, t) && Begin !in t && !s.reader.Idle?
    ensures !After(s, t).reader.Idle? && After(s, t).reader.before == s.reader.before
    decreases |t|
  {
    if t != [] {
      assert t[0] in t;
      KeepsBefore(Step(s, t[0]), t[1..]);
    }
  }
}
