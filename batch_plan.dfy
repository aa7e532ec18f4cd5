/**
 * What the batch loop's steps look like: how many batches it forms, how
 * big they are, that together they are the recipient list, and where the
 * pauses fall.
 */
module BatchPlan {
  import opened RecipientList
  import opened Dispatcher

  /** The batches sent, in order. */
  function Batches(steps: seq<Effect>): seq<seq<Recipient>> {
    if steps == [] then []
    else (if steps[0].SendBatch? then [steps[0].batch] else []) + Batches(steps[1..])
  }

  /** The number of pauses. */
  function Delays(steps: seq<Effect>): nat {
    if steps == [] then 0
    else (if steps[0].Delay? then 1 else 0) + Delays(steps[1..])
  }

  /** The batches laid end to end. */
  function Flatten(bs: seq<seq<Recipient>>): seq<Recipient> {
    if bs == [] then [] else bs[0] + Flatten(bs[1..])
  }

  /** ⌈n / 20⌉: the number of batches needed for `n` recipients. */
  function NumBatches(n: nat): nat {
    (n + BatchSize - 1) / BatchSize
  }

  lemma {:induction false} BatchesAppend(a: seq<Effect>, b: seq<Effect>)
    ensures Batches(a + b) == Batches(a) + Batches(b)
    ensures Delays(a + b) == Delays(a) + Delays(b)
  {
    if a == [] {
      assert a + b == b;
    } else {
      assert (a + b)[1..] == a[1..] + b;
      BatchesAppend(a[1..], b);
    }
  }

  /** One turn of the loop: the batch at `i`, maybe a pause, then the rest. */
  lemma ScheduleStep(rs: seq<Recipient>, i: nat)
    requires i < |rs|
    ensures Batches(ScheduleFrom(rs, i)) == [rs[i..Min(i + BatchSize, |rs|)]] + Batches(ScheduleFrom(rs, i + BatchSize))
    ensures Delays(ScheduleFrom(rs, i)) == (if i + BatchSize < |rs| then 1 else 0) + Delays(ScheduleFrom(rs, i + BatchSize))
  {
    var head := [SendBatch(rs[i..Min(i + BatchSize, |rs|)])];
    var pause: seq<Effect> := if i + BatchSize < |rs| then [Delay(DelayMs)] else [];
    var rest := ScheduleFrom(rs, i + BatchSize);
    BatchesAppend(head + pause, rest);
    BatchesAppend(head, pause);
    assert Batches(pause) == [];
  }

  /**
   * From position `i` on, the loop forms ⌈(n - i) / 20⌉ batches that are
   * `rs[i..]` laid end to end, every one but the last of exactly 20,
   * the last of 1 to 20, with one pause fewer than batches.
   */
  lemma {:induction false} ScheduleFromFacts(rs: seq<Recipient>, i: nat)
    requires i <= |rs|
    ensures var bs := Batches(ScheduleFrom(rs, i));
      && |bs| == NumBatches(|rs| - i)
      && Flatten(bs) == rs[i..]
      && (forall k :: 0 <= k < |bs| - 1 ==> |bs[k]| == BatchSize)
      && (bs != [] ==> 1 <= |bs[|bs| - 1]| <= BatchSize)
      && Delays(ScheduleFrom(rs, i)) == if i == |rs| then 0 else |bs| - 1
    decreases |rs| - i
  {
    if i < |rs| {
      ScheduleStep(rs, i);
      var e := Min(i + BatchSize, |rs|);
      var bs := Batches(ScheduleFrom(rs, i));
      if i + BatchSize < |rs| {
        ScheduleFromFacts(rs, i + BatchSize);
        var rest := Batches(ScheduleFrom(rs, i + BatchSize));
        assert bs == [rs[i..e]] + rest;
        assert bs[1..] == rest;
        assert rs[i..] == rs[i..e] + rs[e..];
      } else {
        assert ScheduleFrom(rs, i + BatchSize) == [];
        assert Batches(ScheduleFrom(rs, i + BatchSize)) == [];
        assert e == |rs| && rs[i..e] == rs[i..];
        assert bs == [rs[i..]];
        assert Flatten(bs) == rs[i..] + Flatten([]);
      }
    }
  }

  /**
   * For `n` recipients the loop forms ⌈n / 20⌉ batches; every batch but
   * the last has exactly 20 members and the last has 1 to 20; laid end to
   * end they are the recipient list; and there is one pause fewer than
   * batches (none at all for an empty list).
   */
  lemma BatchingFacts(rs: seq<Recipient>)
    ensures var bs := Batches(Schedule(rs));
      && |bs| == NumBatches(|rs|)
      && Flatten(bs) == rs
      && (forall k :: 0 <= k < |bs| - 1 ==> |bs[k]| == BatchSize)
      && (bs != [] ==> 1 <= |bs[|bs| - 1]| <= BatchSize)
      && Delays(Schedule(rs)) == if rs == [] then 0 else NumBatches(|rs|) - 1
  {
    ScheduleFromFacts(rs, 0);
    assert rs[0..] == rs;
  }

  /**
   * From position `i` on, the steps alternate batch, pause, batch, ...,
   * batch: a pause follows a batch exactly when another batch comes after
   * it, and the steps never end with a pause.
   */
  lemma {:induction false} ScheduleFromAlternates(rs: seq<Recipient>, i: nat)
    requires i < |rs|
    ensures var steps := ScheduleFrom(rs, i);
      && |steps| % 2 == 1
      && forall j :: 0 <= j < |steps| ==>
           (steps[j].SendBatch? <==> j % 2 == 0) && (steps[j] == Delay(DelayMs) <==> j % 2 == 1)
    decreases |rs| - i
  {
    var steps := ScheduleFrom(rs, i);
    var head := SendBatch(rs[i..Min(i + BatchSize, |rs|)]);
    if i + BatchSize < |rs| {
      ScheduleFromAlternates(rs, i + BatchSize);
      var rest := ScheduleFrom(rs, i + BatchSize);
      assert steps == [head, Delay(DelayMs)] + rest;
      forall j | 2 <= j < |steps|
        ensures (steps[j].SendBatch? <==> j % 2 == 0) && (steps[j] == Delay(DelayMs) <==> j % 2 == 1)
      {
        assert steps[j] == rest[j - 2];
      }
    } else {
      assert ScheduleFrom(rs, i + BatchSize) == [];
      assert steps == [head];
    }
  }

  /**
   * The whole loop's steps: for a non-empty list they alternate batch and
   * pause and end with a batch, so a pause follows a batch exactly when
   * recipients remain after it.
   */
  lemma PacingPlacement(rs: seq<Recipient>)
    ensures rs == [] ==> Schedule(rs) == []
    ensures rs != [] ==>
      var steps := Schedule(rs);
      && steps[|steps| - 1].SendBatch?
      && forall j :: 0 <= j < |steps| ==>
           (steps[j].SendBatch? <==> j % 2 == 0) && (steps[j] == Delay(DelayMs) <==> j % 2 == 1)
  {
    if rs != [] {
      ScheduleFromAlternates(rs, 0);
    }
  }

  /** For 45 recipients: three batches of 20, 20 and 5 members, and two pauses. */
  lemma FortyFiveRecipients(rs: seq<Recipient>)
    requires |rs| == 45
    ensures var bs := Batches(Schedule(rs));
      |bs| == 3 && |bs[0]| == 20 && |bs[1]| == 20 && |bs[2]| == 5 && Delays(Schedule(rs)) == 2
  {
    BatchingFacts(rs);
    var bs := Batches(Schedule(rs));
    assert |bs| == 3;
    assert Flatten(bs[2..]) == bs[2] + Flatten(bs[3..]);
    assert Flatten(bs[1..]) == bs[1] + Flatten(bs[2..]);
    assert |rs| == |bs[0]| + |bs[1]| + |bs[2]|;
  }
}
