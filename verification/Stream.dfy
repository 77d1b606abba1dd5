/** Streamed generation: cumulative snapshots turned into sequenced events, and a
  * consumer that replays them.
  */
module Stream {
  import opened Wrappers
  import opened Utf8

  datatype SnapshotDelta = Unchanged | Append(text: string) | Replacement(text: string)

  datatype Event =
    | Delta(seqNo: nat, text: string)
    | Replace(seqNo: nat, text: string)
    | Done(finalText: string)
    | Cancelled(finalText: string)

  predicate IsTerminal(e: Event) {
    e.Done? || e.Cancelled?
  }

  // --- The diff --------------------------------------------------------------------------

  /** The number of leading characters two strings share. */
  function SharedChars(a: string, b: string): (k: nat)
    ensures k <= |a| && k <= |b| && a[..k] == b[..k]
    ensures k < |a| && k < |b| ==> a[k] != b[k]
  {
    if a == [] || b == [] || a[0] != b[0] then 0
    else
      var k := SharedChars(a[1..], b[1..]);
      assert a[..k + 1] == [a[0]] + a[1..][..k] && b[..k + 1] == [b[0]] + b[1..][..k];
      k + 1
  }

  lemma WidthStep(a: string, k: nat)
    requires k < |a|
    ensures ByteLen(a[..k + 1]) == ByteLen(a[..k]) + |EncodeChar(a[k])|
  {
    EncodeStep(a, k);
  }

  /** Byte length of the longest common prefix, measured on character boundaries. */
  method CommonPrefixLen(a: string, b: string) returns (matched: nat)
    ensures matched == ByteLen(a[..SharedChars(a, b)]) == ByteLen(b[..SharedChars(a, b)])
  {
    matched := 0;
    var k := 0;
    while k < |a| && k < |b|
      invariant k <= |a| && k <= |b| && a[..k] == b[..k]
      invariant matched == ByteLen(a[..k])
    {
      var idx := matched;
      if a[k] != b[k] {
        return idx;
      }
      WidthStep(a, k);
      matched := idx + |EncodeChar(a[k])|;
      k := k + 1;
    }
  }

  /** What a consumer holding `prev` must do to hold `next`. */
  function Diff(prev: string, next: string): SnapshotDelta {
    if prev == next then Unchanged
    else if prev <= next then Append(next[|prev|..])
    else Replacement(next)
  }

  /** Nothing to do exactly for the same text, a tail to append exactly for a proper extension, and
    * otherwise the new text whole.
    */
  lemma DiffIs(prev: string, next: string, t: string)
    ensures Diff(prev, next) == Unchanged <==> prev == next
    ensures Diff(prev, next) == Append(t) <==> t != "" && prev + t == next
    ensures Diff(prev, next) == Replacement(t) <==> t == next && !(prev <= next)
  {
    if prev <= next {
      assert prev + next[|prev|..] == next;
    }
    if prev + t == next {
      assert next[|prev|..] == t;
    }
  }

  method DiffSnapshot(prev: string, next: string) returns (d: SnapshotDelta)
    ensures d == Diff(prev, next)
  {
    if prev == next { return Unchanged; }
    var lcp := CommonPrefixLen(prev, next);
    ghost var k := SharedChars(prev, next);
    assert prev[..|prev|] == prev;
    if k < |prev| { PrefixBytesGrow(prev, k, |prev|); }
    if lcp == ByteLen(prev) {
      assert k == |prev| && next[..k] == prev;
      CharIndexAt(next, k);
      CharIndexAt(next, |next|);
      assert next[..|next|] == next;
      d := Append(Slice(next, lcp, ByteLen(next)));
    } else {
      assert k < |prev|;
      d := Replacement(next);
    }
  }

  // --- The pump ----------------------------------------------------------------------------

  datatype Pump = Pump(prev: string, seqNo: nat)

  function EventFor(p: Pump, snapshot: string): Option<Event> {
    match Diff(p.prev, snapshot)
    case Unchanged => None
    case Append(text) => Some(Delta(p.seqNo, text))
    case Replacement(text) => Some(Replace(p.seqNo, text))
  }

  function Pushed(p: Pump, snapshot: string): Pump {
    if EventFor(p, snapshot).Some? then Pump(snapshot, p.seqNo + 1) else p
  }

  function Terminal(p: Pump, cancelled: bool): Event {
    if cancelled then Cancelled(p.prev) else Done(p.prev)
  }

  class SnapshotPump {
    var prev: string
    var seqNo: nat

    ghost function View(): Pump
      reads this
    {
      Pump(prev, seqNo)
    }

    constructor ()
      ensures View() == Pump("", 0)
    {
      prev, seqNo := "", 0;
    }

    method Push(snapshot: string) returns (event: Option<Event>)
      modifies this
      ensures event == EventFor(old(View()), snapshot) && View() == Pushed(old(View()), snapshot)
    {
      var d := DiffSnapshot(prev, snapshot);
      match d {
        case Unchanged => event := None;
        case Append(text) => event := Some(Delta(seqNo, text)); prev, seqNo := snapshot, seqNo + 1;
        case Replacement(text) => event := Some(Replace(seqNo, text)); prev, seqNo := snapshot, seqNo + 1;
      }
    }

    method Finish(cancelled: bool) returns (event: Event)
      ensures event == Terminal(View(), cancelled)
    {
      event := if cancelled then Cancelled(prev) else Done(prev);
    }
  }

  // --- Replay -------------------------------------------------------------------------------

  /** The consumer's buffer after one event. */
  function Applied(buffer: string, e: Event): string {
    match e
    case Delta(_, text) => buffer + text
    case Replace(_, text) => text
    case Done(text) => text
    case Cancelled(_) => buffer
  }

  function Replay(events: seq<Event>): string {
    if events == [] then "" else Applied(Replay(events[..|events| - 1]), events[|events| - 1])
  }

  /** The pump after a run of snapshots, and everything it emitted. */
  function After(snapshots: seq<string>): Pump {
    if snapshots == [] then Pump("", 0) else Pushed(After(snapshots[..|snapshots| - 1]), snapshots[|snapshots| - 1])
  }

  function Emitted(snapshots: seq<string>): seq<Event> {
    if snapshots == [] then []
    else
      var front, last := snapshots[..|snapshots| - 1], snapshots[|snapshots| - 1];
      Emitted(front) + (if EventFor(After(front), last).Some? then [EventFor(After(front), last).value] else [])
  }

  function SeqNo(e: Event): Option<nat> {
    match e
    case Delta(n, _) => Some(n)
    case Replace(n, _) => Some(n)
    case _ => None
  }

  ghost predicate GapFree(events: seq<Event>) {
    forall i :: 0 <= i < |events| ==> SeqNo(events[i]) == Some(i)
  }

  /** However snapshots grow, shrink or rewrite themselves, replaying the events leaves the
    * consumer with the latest snapshot, numbered 0, 1, 2, … with no gap.
    */
  lemma {:induction false} ReplayFollowsPump(snapshots: seq<string>)
    ensures Replay(Emitted(snapshots)) == After(snapshots).prev
    ensures GapFree(Emitted(snapshots)) && After(snapshots).seqNo == |Emitted(snapshots)|
    ensures snapshots != [] ==> After(snapshots).prev == snapshots[|snapshots| - 1]
  {
    if snapshots != [] {
      var front, last := snapshots[..|snapshots| - 1], snapshots[|snapshots| - 1];
      ReplayFollowsPump(front);
      OnePushReplays(After(front), Emitted(front), last);
    }
  }

  function TextOf(e: Event): string {
    match e
    case Delta(_, text) => text
    case Replace(_, text) => text
    case Done(text) => text
    case Cancelled(text) => text
  }

  /** The terminal event carries what the consumer has already put together, so applying it changes
    * nothing; it uses up no number.
    */
  lemma TerminalCarriesReplay(snapshots: seq<string>, cancelled: bool)
    ensures var e := Terminal(After(snapshots), cancelled);
      && TextOf(e) == Replay(Emitted(snapshots)) == Replay(Emitted(snapshots) + [e])
      && (snapshots != [] ==> TextOf(e) == snapshots[|snapshots| - 1])
      && SeqNo(e).None? && (e.Cancelled? <==> cancelled)
  {
    ReplayFollowsPump(snapshots);
    var e := Terminal(After(snapshots), cancelled);
    assert (Emitted(snapshots) + [e])[..|Emitted(snapshots)|] == Emitted(snapshots);
  }

  lemma OnePushReplays(p: Pump, events: seq<Event>, last: string)
    requires Replay(events) == p.prev && GapFree(events) && p.seqNo == |events|
    ensures var e := EventFor(p, last); var now := events + (if e.Some? then [e.value] else []);
      Replay(now) == Pushed(p, last).prev == last && GapFree(now) && Pushed(p, last).seqNo == |now|
  {
    var e := EventFor(p, last);
    if e.Some? {
      assert (events + [e.value])[..|events|] == events;
      if p.prev <= last { assert last == p.prev + last[|p.prev|..]; }
    } else {
      assert events + [] == events;
    }
  }

  // --- The simulated producer ---------------------------------------------------------------------

  /** The first poll below `n` that sees the flag set. */
  function StopAt(poll: nat -> bool, i: nat, n: nat): (k: nat)
    requires i <= n
    ensures i <= k <= n && (forall j :: i <= j < k ==> !poll(j)) && (k < n ==> poll(k))
    decreases n - i
  {
    if i == n || poll(i) then i else StopAt(poll, i + 1, n)
  }

  function OneByOne(text: string, k: nat): (r: seq<Event>)
    requires k <= |text|
    ensures |r| == k
  {
    seq(k, i requires 0 <= i < k => Delta(i, [text[i]]))
  }

  lemma {:induction false} OneByOneReplays(text: string, k: nat)
    requires k <= |text|
    ensures Replay(OneByOne(text, k)) == text[..k]
  {
    if k > 0 {
      OneByOneReplays(text, k - 1);
      assert OneByOne(text, k)[..k - 1] == OneByOne(text, k - 1);
      assert text[..k] == text[..k - 1] + [text[k - 1]];
    }
  }

  /** Everything the producer would send to a receiver that stays. */
  function Produced(text: string, poll: nat -> bool): seq<Event> {
    var k := StopAt(poll, 0, |text|);
    OneByOne(text, k) + [if k < |text| || poll(|text|) then Cancelled(text[..k]) else Done(text)]
  }

  /** `poll(i)` is what the i-th look at the cancel flag sees; the receiver takes the first
    * `taken` events and is gone after that.
    */
  method SpawnSimulated(text: string, poll: nat -> bool, taken: Option<nat>) returns (sent: seq<Event>)
    ensures sent == if taken.Some? && taken.value < |Produced(text, poll)| then Produced(text, poll)[..taken.value]
                    else Produced(text, poll)
  {
    var pump := new SnapshotPump();
    var snapshot := "";
    var cancelled := false;
    sent := [];
    ghost var k := StopAt(poll, 0, |text|);
    var i := 0;
    while i < |text| && !cancelled
      invariant i <= k && snapshot == text[..i] && sent == OneByOne(text, i)
      invariant pump.View() == Pump(text[..i], i)
      invariant taken.Some? ==> i <= taken.value
      invariant cancelled ==> i < |text| && i == k && poll(i)
      decreases |text| - i, !cancelled
    {
      if poll(i) {
        cancelled := true;
      } else {
        snapshot := snapshot + [text[i]];
        assert snapshot == text[..i + 1];
        assert snapshot[|text[..i]|..] == [text[i]];
        var event := pump.Push(snapshot);
        if taken.Some? && taken.value == i {
          assert Produced(text, poll)[..i] == OneByOne(text, i);
          return;
        }
        sent := sent + [event.value];
        i := i + 1;
      }
    }
    assert i == k;
    cancelled := cancelled || poll(|text|);
    var last := pump.Finish(cancelled);
    assert text[..|text|] == text;
    assert Produced(text, poll) == OneByOne(text, k) + [last];
    if taken.Some? && taken.value == |sent| {
      assert Produced(text, poll)[..k] == OneByOne(text, k);
      return;
    }
    sent := sent + [last];
  }

  /** A receiver that stays gets exactly one terminal event, last; its text is what replaying the
    * rest gave, a prefix of the input; it is Done only with the whole input and no cancel seen.
    */
  lemma ProducedEndsOnce(text: string, poll: nat -> bool)
    ensures var events := Produced(text, poll); var last := events[|events| - 1];
      && |events| > 0
      && (forall i :: 0 <= i < |events| ==> (IsTerminal(events[i]) <==> i == |events| - 1))
      && GapFree(events[..|events| - 1])
      && last.finalText == Replay(events[..|events| - 1])
      && last.finalText <= text
      && (last.Done? <==> forall i :: 0 <= i <= |text| ==> !poll(i))
      && (last.Done? ==> last.finalText == text)
  {
    var events, k := Produced(text, poll), StopAt(poll, 0, |text|);
    assert events[..|events| - 1] == OneByOne(text, k);
    OneByOneReplays(text, k);
    assert text[..|text|] == text;
  }
}
