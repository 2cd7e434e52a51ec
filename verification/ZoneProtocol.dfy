// Writes in flight on one sequential zone file of a mount with errors=repair: the
// file system moves the write pointer when it issues a write, the device executes
// requests in the order issued, and completions reach the file in any order.
module ZoneProtocol {
  import opened ZoneFile

  datatype Request = Request(start: nat, end: nat)

  // The device's answer to an executed request, not yet handled by the file system.
  datatype Answer = Stored(end: nat) | Rejected

  datatype State = State(z: Zone,
                         dev: nat,              // the device's own write pointer
                         queue: seq<Request>,   // issued, not yet executed
                         answers: seq<Answer>,
                         base: nat,             // size at the last reset, finish or recovery
                         ends: seq<nat>)        // ends of the writes completed since then

  datatype Step =
    | Issue(n: nat)       // an admitted direct write
    | Execute             // the device executes the oldest request
    | Break(bytes: nat)   // it fails after so many bytes
    | Complete(j: nat)    // a successful answer is handled
    | Recover(j: nat)     // a failed one is
    | Resize(isize: nat)  // reset or finish

  function Without<T>(s: seq<T>, j: nat): seq<T>
    requires j < |s|
  {
    s[..j] + s[j + 1..]
  }

  // Recovery when the device reports dev and the mount repairs.
  function Repaired(z: Zone, dev: nat): Zone {
    var y := z.(wp := dev, isize := dev, open := z.open && dev < z.cap);
    y.(active := ShouldBeActive(y))
  }

  function Truncated(z: Zone, isize: nat): Zone {
    var y := z.(isize := isize, wp := isize, open := z.open && isize == 0);
    y.(active := ShouldBeActive(y))
  }

  predicate Enabled(s: State, step: Step) {
    match step
    case Issue(n) => n > 0 && s.z.wp + n <= s.z.cap
    case Execute => s.queue != []
    case Break(bytes) => s.queue != [] && s.queue[0].start == s.dev && s.dev + bytes < s.queue[0].end
    case Complete(j) => j < |s.answers| && s.answers[j].Stored?
    case Recover(j) => j < |s.answers| && s.answers[j].Rejected?
    case Resize(isize) => s.queue == [] && s.answers == [] && (isize == 0 || isize == s.z.cap) && isize != s.z.isize
  }

  function Next(s: State, step: Step): State
    requires Enabled(s, step)
  {
    match step
    case Issue(n) => s.(z := Issued(s.z, s.z.wp + n), queue := s.queue + [Request(s.z.wp, s.z.wp + n)])
    case Execute =>
      if s.queue[0].start == s.dev
      then s.(dev := s.queue[0].end, queue := s.queue[1..], answers := s.answers + [Stored(s.queue[0].end)])
      else s.(queue := s.queue[1..], answers := s.answers + [Rejected])
    case Break(bytes) => s.(dev := s.dev + bytes, queue := s.queue[1..], answers := s.answers + [Rejected])
    case Complete(j) =>
      var end := s.answers[j].end;
      s.(z := Completed(s.z, end), answers := Without(s.answers, j), ends := s.ends + [end])
    case Recover(j) =>
      s.(z := Repaired(s.z, s.dev), answers := Without(s.answers, j), base := s.dev, ends := [])
    case Resize(isize) =>
      s.(z := Truncated(s.z, isize), dev := isize, base := isize, ends := [])
  }

  // The runs from s to t; in an orderly one no recovery overtakes a write the device
  // would still accept.
  predicate Runs(s: State, steps: seq<Step>, t: State, orderly: bool)
    decreases |steps|
  {
    if steps == [] then s == t
    else
      && Enabled(s, steps[0]) && (orderly ==> !(steps[0].Recover? && Racing(s)))
      && Runs(Next(s, steps[0]), steps[1..], t, orderly)
  }

  ghost predicate Reaches(s: State, t: State, orderly: bool) {
    exists steps :: Runs(s, steps, t, orderly)
  }

  // ---------- the queue ----------

  // Requests that follow each other from one offset to another.
  predicate Chain(q: seq<Request>, from: nat, to: nat) {
    if q == [] then from == to
    else q[0].start == from && from < q[0].end && Chain(q[1..], q[0].end, to)
  }

  // The device will refuse them all.
  predicate Doomed(q: seq<Request>, dev: nat) {
    forall i: nat | i < |q| :: dev < q[i].start
  }

  // Refused requests first, then a chain from the device's write pointer to the file system's.
  predicate Lined(q: seq<Request>, dev: nat, wp: nat) {
    if q != [] && dev < q[0].start then Lined(q[1..], dev, wp) else Chain(q, dev, wp)
  }

  // A waiting request that the device will still accept.
  predicate Racing(s: State) {
    exists i: nat :: i < |s.queue| && s.queue[i].start == s.dev
  }

  lemma {:induction false} ChainAfter(q: seq<Request>, from: nat, to: nat)
    requires Chain(q, from, to)
    ensures from <= to && (q != [] ==> from < to)
    ensures forall i: nat | i < |q| :: from <= q[i].start
  {
    if q != [] {
      ChainAfter(q[1..], q[0].end, to);
      forall i: nat | i < |q| ensures from <= q[i].start {
        if i > 0 { assert q[i] == q[1..][i - 1]; }
      }
    }
  }

  lemma {:induction false} ChainAppend(q: seq<Request>, from: nat, to: nat, n: nat)
    requires Chain(q, from, to) && n > 0
    ensures Chain(q + [Request(to, to + n)], from, to + n)
  {
    var r := Request(to, to + n);
    if q == [] {
      assert ([] + [r])[1..] == [];
    } else {
      ChainAppend(q[1..], q[0].end, to, n);
      assert (q + [r])[1..] == q[1..] + [r];
    }
  }

  lemma {:induction false} LinedAppend(q: seq<Request>, dev: nat, wp: nat, n: nat)
    requires Lined(q, dev, wp) && n > 0
    ensures Lined(q + [Request(wp, wp + n)], dev, wp + n)
  {
    var r := Request(wp, wp + n);
    if q != [] && dev < q[0].start {
      LinedAppend(q[1..], dev, wp, n);
      assert (q + [r])[1..] == q[1..] + [r];
    } else {
      ChainAppend(q, dev, wp, n);
    }
  }

  lemma {:induction false} LinedBounds(q: seq<Request>, dev: nat, wp: nat)
    requires Lined(q, dev, wp)
    ensures dev <= wp
    ensures dev < wp <==> exists i: nat :: i < |q| && q[i].start == dev
  {
    if q != [] && dev < q[0].start {
      LinedBounds(q[1..], dev, wp);
      if dev < wp {
        var i: nat :| i < |q[1..]| && q[1..][i].start == dev;
        assert q[i + 1].start == dev;
      }
      if i: nat :| i < |q| && q[i].start == dev {
        assert q[1..][i - 1].start == dev;
      }
    } else {
      ChainAfter(q, dev, wp);
    }
  }

  lemma {:induction false} DoomedLined(q: seq<Request>, dev: nat)
    requires Doomed(q, dev)
    ensures Lined(q, dev, dev)
  {
    if q != [] {
      forall i: nat | i < |q[1..]| ensures dev < q[1..][i].start { assert q[1..][i] == q[i + 1]; }
      DoomedLined(q[1..], dev);
    }
  }

  lemma {:induction false} LinedIdle(q: seq<Request>, dev: nat)
    requires Lined(q, dev, dev)
    ensures Doomed(q, dev)
  {
    if q != [] && dev < q[0].start {
      LinedIdle(q[1..], dev);
      forall i: nat | i < |q| ensures dev < q[i].start {
        if i > 0 { assert q[i] == q[1..][i - 1]; }
      }
    } else {
      ChainAfter(q, dev, dev);
    }
  }

  // ---------- the invariant ----------

  predicate HasRejected(answers: seq<Answer>) {
    exists i: nat :: i < |answers| && answers[i].Rejected?
  }

  predicate HasEnd(answers: seq<Answer>, end: nat) {
    exists i: nat :: i < |answers| && answers[i] == Stored(end)
  }

  // The zone record: usable, within bounds, active flag exact.
  predicate RecordGood(s: State) {
    && !s.z.cnv && !s.z.offline && !s.z.readonly
    && s.z.isize <= s.dev <= s.z.cap && s.z.wp <= s.z.cap && s.z.cap > 0
    && (s.z.active <==> ShouldBeActive(s.z))
  }

  // Either the write pointers will meet, or a rejected write waits for recovery.
  predicate QueueGood(s: State) {
    Lined(s.queue, s.dev, s.z.wp) || (Doomed(s.queue, s.dev) && s.dev < s.z.wp && HasRejected(s.answers))
  }

  predicate AnswersGood(s: State) {
    && (forall i: nat | i < |s.answers| && s.answers[i].Stored? :: s.answers[i].end <= s.dev)
    && (s.z.isize == s.dev || HasEnd(s.answers, s.dev) || HasRejected(s.answers))
  }

  // The size is the largest completed end.
  predicate SizeIsLargest(s: State) {
    && s.base <= s.z.isize
    && (forall i: nat | i < |s.ends| :: s.ends[i] <= s.z.isize)
    && (s.z.isize == s.base || exists i: nat :: i < |s.ends| && s.ends[i] == s.z.isize)
  }

  predicate Inv(s: State) {
    RecordGood(s) && QueueGood(s) && AnswersGood(s) && SizeIsLargest(s)
  }

  predicate Quiet(s: State) {
    s.queue == [] && s.answers == []
  }

  // What the invariant means to a user of the file.
  lemma InvMeans(s: State)
    requires Inv(s)
    ensures s.z.isize <= s.dev <= s.z.wp <= s.z.cap
    ensures Quiet(s) ==> s.z.isize == s.dev == s.z.wp
  {
    if Lined(s.queue, s.dev, s.z.wp) {
      LinedBounds(s.queue, s.dev, s.z.wp);
    }
  }

  lemma RemovedAnswer(s: seq<Answer>, j: nat, i: nat)
    requires j < |s| && i < |s| && i != j
    ensures s[i] in Without(s, j)
  {
    var k := if i < j then i else i - 1;
    assert Without(s, j)[k] == s[i];
  }

  lemma IssueKeeps(s: State, n: nat)
    requires Inv(s) && Enabled(s, Issue(n))
    ensures Inv(Next(s, Issue(n)))
  {
    InvMeans(s);
    var t := Next(s, Issue(n));
    if Lined(s.queue, s.dev, s.z.wp) {
      LinedAppend(s.queue, s.dev, s.z.wp, n);
    }
  }

  lemma AnsweredKeeps(s: State, a: Answer)
    ensures HasRejected(s.answers + [a]) <==> HasRejected(s.answers) || a == Rejected
    ensures forall end :: HasEnd(s.answers + [a], end) <==> HasEnd(s.answers, end) || a == Stored(end)
  {
    var t := s.answers + [a];
    assert t[|t| - 1] == a && forall i: nat | i < |s.answers| :: t[i] == s.answers[i];
  }

  lemma ExecuteKeeps(s: State)
    requires Inv(s) && Enabled(s, Execute)
    ensures Inv(Next(s, Execute))
  {
    var q := s.queue;
    var t := Next(s, Execute);
    InvMeans(s);
    if q[0].start == s.dev {
      assert Chain(q, s.dev, s.z.wp);
      ChainAfter(q[1..], q[0].end, s.z.wp);
      assert Lined(t.queue, t.dev, t.z.wp);
      AnsweredKeeps(s, Stored(q[0].end));
    } else {
      AnsweredKeeps(s, Rejected);
      forall i: nat | i < |q[1..]| ensures q[1..][i] == q[i + 1] {}
    }
  }

  lemma BreakKeeps(s: State, bytes: nat)
    requires Inv(s) && Enabled(s, Break(bytes))
    ensures Inv(Next(s, Break(bytes)))
  {
    var q := s.queue;
    InvMeans(s);
    assert Chain(q, s.dev, s.z.wp);
    ChainAfter(q[1..], q[0].end, s.z.wp);
    AnsweredKeeps(s, Rejected);
  }

  lemma CompleteKeeps(s: State, j: nat)
    requires Inv(s) && Enabled(s, Complete(j))
    ensures Inv(Next(s, Complete(j)))
  {
    InvMeans(s);
    var t := Next(s, Complete(j));
    var end := s.answers[j].end;
    forall i: nat | i < |s.answers| && i != j ensures s.answers[i] in t.answers { RemovedAnswer(s.answers, j, i); }
    forall i: nat | i < |t.answers| ensures t.answers[i] in s.answers {}
    assert t.ends[|s.ends|] == end;
    assert forall i: nat | i < |s.ends| :: t.ends[i] == s.ends[i];
  }

  lemma RecoverKeeps(s: State, j: nat)
    requires Inv(s) && Enabled(s, Recover(j)) && !Racing(s)
    ensures Inv(Next(s, Recover(j)))
  {
    InvMeans(s);
    var t := Next(s, Recover(j));
    if Lined(s.queue, s.dev, s.z.wp) {
      LinedBounds(s.queue, s.dev, s.z.wp);
      LinedIdle(s.queue, s.dev);
    }
    DoomedLined(s.queue, s.dev);
    forall i: nat | i < |t.answers| ensures t.answers[i] in s.answers {}
  }

  // Every step keeps the invariant, save a recovery that overtakes a write the device
  // would still accept; and no step but a reset makes the file shorter.
  lemma StepKeeps(s: State, step: Step)
    requires Inv(s) && Enabled(s, step) && (step.Recover? ==> !Racing(s))
    ensures Inv(Next(s, step))
    ensures step != Resize(0) ==> Next(s, step).z.isize >= s.z.isize
  {
    InvMeans(s);
    match step
    case Issue(n) => IssueKeeps(s, n);
    case Execute => ExecuteKeeps(s);
    case Break(bytes) => BreakKeeps(s, bytes);
    case Complete(j) => CompleteKeeps(s, j);
    case Recover(j) => RecoverKeeps(s, j);
    case Resize(_) =>
  }

  // ---------- whole runs ----------

  lemma {:induction false} RunKeeps(s: State, steps: seq<Step>, t: State)
    requires Inv(s) && Runs(s, steps, t, true)
    ensures Inv(t)
    ensures Resize(0) !in steps ==> t.z.isize >= s.z.isize
    decreases |steps|
  {
    if steps != [] {
      StepKeeps(s, steps[0]);
      RunKeeps(Next(s, steps[0]), steps[1..], t);
    }
  }

  // The size never passes the write pointers, and all three meet when nothing is in flight.
  lemma SizesOverRuns(s: State, steps: seq<Step>, t: State)
    requires Inv(s) && Runs(s, steps, t, true)
    ensures t.z.isize <= t.dev <= t.z.wp <= t.z.cap
    ensures Quiet(t) ==> t.z.isize == t.dev == t.z.wp
    ensures t.z.active <==> ShouldBeActive(t.z)
  {
    RunKeeps(s, steps, t);
    InvMeans(t);
  }

  // ---------- without device failures ----------

  predicate Clean(s: State) {
    Inv(s) && Chain(s.queue, s.dev, s.z.wp) && !HasRejected(s.answers)
  }

  // The admission check suffices: a device that does not fail by itself accepts
  // every write the file system admitted.
  lemma CleanStep(s: State, step: Step)
    requires Clean(s) && Enabled(s, step) && !step.Break?
    ensures Clean(Next(s, step)) && !step.Recover?
    ensures step == Execute ==> Next(s, step).answers == s.answers + [Stored(s.queue[0].end)]
  {
    StepKeeps(s, step);
    match step
    case Issue(n) => ChainAppend(s.queue, s.dev, s.z.wp, n);
    case Execute => AnsweredKeeps(s, Stored(s.queue[0].end));
    case Complete(j) =>
      var t := Next(s, step);
      forall i: nat | i < |t.answers| ensures t.answers[i] in s.answers {}
    case Resize(_) =>
  }

  lemma {:induction false} CleanRun(s: State, steps: seq<Step>, t: State)
    requires Clean(s) && Runs(s, steps, t, true)
    requires forall i: nat | i < |steps| :: !steps[i].Break?
    ensures Clean(t)
    decreases |steps|
  {
    if steps != [] {
      CleanStep(s, steps[0]);
      forall i: nat | i < |steps[1..]| ensures !steps[1..][i].Break? { assert steps[1..][i] == steps[i + 1]; }
      CleanRun(Next(s, steps[0]), steps[1..], t);
    }
  }

  // ---------- recovery that comes too late ----------

  // The device goes on to accept a write past a write pointer that was rolled back.
  lemma {:induction false} RolledBack(s: State, wp: nat) returns (steps: seq<Step>, t: State)
    requires Lined(s.queue, s.dev, wp) && Racing(s) && s.z.wp <= s.dev
    ensures Runs(s, steps, t, true) && t.z.isize > t.z.wp
    decreases |s.queue|
  {
    var u := Next(s, Execute);
    if s.dev < s.queue[0].start {
      var i: nat :| i < |s.queue| && s.queue[i].start == s.dev;
      assert u.queue[i - 1].start == u.dev;
      var rest;
      rest, t := RolledBack(u, wp);
      steps := [Execute] + rest;
      assert steps[1..] == rest;
    } else {
      var j := |s.answers|;
      assert u.answers[j] == Stored(s.queue[0].end);
      t := Next(u, Complete(j));
      steps := [Execute, Complete(j)];
      assert steps[1..] == [Complete(j)] && [Complete(j)][1..] == [];
      assert Runs(u, [Complete(j)], t, true) by { assert Runs(t, [], t, true); }
    }
  }

  // Recovery is sound exactly when no waiting write can still be accepted.
  lemma RecoverySound(s: State, j: nat)
    requires Inv(s) && Enabled(s, Recover(j))
    ensures !Racing(s) <==> forall t | Reaches(Next(s, Recover(j)), t, true) :: t.z.isize <= t.z.wp
  {
    var u := Next(s, Recover(j));
    if Racing(s) {
      assert Lined(s.queue, s.dev, s.z.wp);
      assert Racing(u) by {
        var i: nat :| i < |s.queue| && s.queue[i].start == s.dev;
        assert u.queue[i].start == u.dev;
      }
      var steps, t := RolledBack(u, s.z.wp);
      assert Reaches(u, t, true);
    } else {
      RecoverKeeps(s, j);
      forall t | Reaches(u, t, true) ensures t.z.isize <= t.z.wp {
        var steps :| Runs(u, steps, t, true);
        SizesOverRuns(u, steps, t);
      }
    }
  }

  lemma {:induction false} RunsOn(s: State, steps: seq<Step>, t: State, step: Step)
    requires Runs(s, steps, t, false) && Enabled(t, step)
    ensures Runs(s, steps + [step], Next(t, step), false)
    decreases |steps|
  {
    if steps == [] {
      assert ([] + [step])[1..] == [];
    } else {
      RunsOn(Next(s, steps[0]), steps[1..], t, step);
      assert (steps + [step])[1..] == steps[1..] + [step];
    }
  }

  lemma Then(s: State, t: State, step: Step) returns (u: State)
    requires Reaches(s, t, false) && Enabled(t, step)
    ensures Reaches(s, u, false) && u == Next(t, step)
  {
    var steps :| Runs(s, steps, t, false);
    RunsOn(s, steps, t, step);
    u := Next(t, step);
  }

  // The fields of a state that the runs below change, on a usable zone.
  datatype Face = Face(dev: nat, wp: nat, isize: nat, cap: nat, queue: seq<Request>, answers: seq<Answer>)

  // State t, reached from s, looks like that.
  ghost predicate Looks(s: State, t: State, v: Face) {
    && Reaches(s, t, false) && !t.z.cnv && !t.z.offline && !t.z.readonly && t.z.cap == v.cap
    && t.dev == v.dev && t.z.wp == v.wp && t.z.isize == v.isize && t.queue == v.queue && t.answers == v.answers
  }

  lemma LooksAtFirst(s: State)
    requires Inv(s) && Quiet(s)
    ensures Looks(s, s, Face(s.z.wp, s.z.wp, s.z.wp, s.z.cap, [], []))
  {
    InvMeans(s);
    assert Runs(s, [], s, false);
  }

  lemma ThenIssue(s: State, t: State, v: Face, n: nat) returns (u: State)
    requires Looks(s, t, v) && n > 0 && v.wp + n <= v.cap
    ensures Looks(s, u, v.(wp := v.wp + n, queue := v.queue + [Request(v.wp, v.wp + n)]))
  {
    hide Reaches;
    u := Then(s, t, Issue(n));
  }

  // The device fails the oldest request at once.
  lemma ThenBreak(s: State, t: State, v: Face, r: Request, rest: seq<Request>) returns (u: State)
    requires Looks(s, t, v) && v.queue == [r] + rest && r.start == v.dev < r.end
    ensures Looks(s, u, v.(queue := rest, answers := v.answers + [Rejected]))
  {
    hide Reaches;
    assert t.queue[1..] == rest;
    u := Then(s, t, Break(0));
  }

  // It executes the only request waiting, and accepts it if it starts where it should.
  lemma ThenExecute(s: State, t: State, v: Face, r: Request) returns (u: State)
    requires Looks(s, t, v) && v.queue == [r]
    ensures Looks(s, u, if r.start == v.dev then v.(dev := r.end, queue := [], answers := v.answers + [Stored(r.end)])
                        else v.(queue := [], answers := v.answers + [Rejected]))
  {
    hide Reaches;
    assert t.queue[1..] == [];
    u := Then(s, t, Execute);
  }

  lemma ThenRecover(s: State, t: State, v: Face, rest: seq<Answer>) returns (u: State)
    requires Looks(s, t, v) && v.answers == [Rejected] + rest
    ensures Looks(s, u, v.(wp := v.dev, isize := v.dev, answers := rest))
  {
    hide Reaches;
    assert Without(v.answers, 0) == rest;
    u := Then(s, t, Recover(0));
  }

  // The last answer is a success past the size.
  lemma ThenComplete(s: State, t: State, v: Face, end: nat) returns (u: State)
    requires Looks(s, t, v) && v.answers == [Stored(end)] && v.isize < end <= v.cap
    ensures Looks(s, u, v.(isize := end, answers := []))
    ensures Enabled(t, Complete(0)) && u == Next(t, Complete(0))
  {
    hide Reaches;
    assert Without(v.answers, 0) == [];
    u := Then(s, t, Complete(0));
  }

  // Two writes are issued and the device fails the first, so it refuses the second.
  lemma BothFail(s: State, n: nat) returns (t: State)
    requires Inv(s) && Quiet(s) && n > 0 && s.z.wp + 2 * n <= s.z.cap
    ensures Looks(s, t, Face(s.z.wp, s.z.wp + n + n, s.z.wp, s.z.cap, [], [Rejected] + [Rejected]))
  {
    LooksAtFirst(s);
    hide Looks, Inv;
    var w, cap := s.z.wp, s.z.cap;
    var first, second := Request(w, w + n), Request(w + n, w + n + n);
    t := ThenIssue(s, s, Face(w, w, w, cap, [], []), n);
    assert [] + [first] == [first] && [] + [Rejected] == [Rejected];
    t := ThenIssue(s, t, Face(w, w + n, w, cap, [first], []), n);
    t := ThenBreak(s, t, Face(w, w + n + n, w, cap, [first] + [second], []), first, [second]);
    t := ThenExecute(s, t, Face(w, w + n + n, w, cap, [second], [Rejected]), second);
  }

  // Between their recoveries a third one of k bytes is issued, and then executed.
  lemma ThirdWrite(s: State, n: nat, k: nat) returns (t: State)
    requires Inv(s) && Quiet(s) && n > 0 && s.z.wp + 2 * n <= s.z.cap && 0 < k <= s.z.cap - s.z.wp
    ensures Looks(s, t, Face(s.z.wp + k, s.z.wp, s.z.wp, s.z.cap, [], [Stored(s.z.wp + k)]))
  {
    t := BothFail(s, n);
    hide Looks, Inv;
    var w, cap := s.z.wp, s.z.cap;
    var third := Request(w, w + k);
    assert [] + [third] == [third] && [Rejected] + [] == [Rejected] && [] + [Stored(w + k)] == [Stored(w + k)];
    t := ThenRecover(s, t, Face(w, w + n + n, w, cap, [], [Rejected] + [Rejected]), [Rejected]);
    t := ThenIssue(s, t, Face(w, w, w, cap, [], [Rejected]), k);
    t := ThenRecover(s, t, Face(w, w + k, w, cap, [third], [Rejected]), []);
    t := ThenExecute(s, t, Face(w, w, w, cap, [third], []), third);
  }

  // Then in the end nothing is in flight and yet the write pointer is behind the size.
  lemma LateRecovery(s: State, n: nat) returns (t: State)
    requires Inv(s) && Quiet(s) && n > 0 && s.z.wp + 2 * n <= s.z.cap
    ensures Reaches(s, t, false) && Quiet(t) && t.z.wp == s.z.wp && t.z.isize == s.z.isize + n
  {
    InvMeans(s);
    t := ThirdWrite(s, n, n);
    hide Inv, Reaches;
    t := ThenComplete(s, t, Face(s.z.wp + n, s.z.wp, s.z.wp, s.z.cap, [], [Stored(s.z.wp + n)]), s.z.wp + n);
  }

  // And if the third write fills the zone, its completion is the one the accounting
  // does not survive: a partly written zone that is no longer counted as active.
  lemma LateRecoveryMiscounts(s: State, n: nat) returns (t: State, u: State)
    requires Inv(s) && Quiet(s) && n > 0 && 0 < s.z.wp && s.z.wp + 2 * n <= s.z.cap
    ensures Reaches(s, t, false) && t.queue == [] && t.answers == [Stored(s.z.cap)] && Overtaken(t.z, s.z.cap)
    ensures Reaches(s, u, false) && Quiet(u) && u.z == Completed(t.z, s.z.cap)
    ensures u.z.isize == u.z.cap == s.z.cap && u.z.wp == s.z.wp && !u.z.active && ShouldBeActive(u.z)
  {
    var k := s.z.cap - s.z.wp;
    t := ThirdWrite(s, n, k);
    hide Inv, Reaches;
    u := ThenComplete(s, t, Face(s.z.cap, s.z.wp, s.z.wp, s.z.cap, [], [Stored(s.z.cap)]), s.z.cap);
  }

  // ---------- the steps are the operations of ZoneFile ----------

  // Issue is a direct write at the write pointer that is still in flight, and Resize a
  // truncation that the device accepts.
  lemma StepsAreOperations(s: State, mount: Mount, n: nat, isize: nat)
    ensures Enabled(s, Issue(n)) ==>
      WriteEffect(s.z, Next(s, Issue(n)).z, mount, s.z.wp, n, Queued, NoReport)
    ensures Enabled(s, Resize(isize)) ==>
      var y := s.z.(isize := isize, wp := isize, open := s.z.open && isize == 0);
      Next(s, Resize(isize)).z == y.(active := ShouldBeActive(y)) && (isize == 0 || isize == s.z.cap)
  {
  }

  // On a usable zone of a mount with errors=repair, recovery makes of the record
  // just what the step says.
  lemma RecoverIsRepair(z: Zone, y: Zone, mount: Mount, dev: nat)
    requires mount.errors == Repair && !z.cnv && !z.offline && !z.readonly && dev <= z.cap
    ensures var report := Report(if dev == z.cap then CondFull else CondOther, dev);
      Recovered(z, y, mount, report, true) <==> y == Repaired(z, dev)
  {
    var report := Report(if dev == z.cap then CondFull else CondOther, dev);
    assert Held(z, report) == dev && !Harmless(z, report, true);
  }
}
