/** Teleporter heartbeats: a timestamp kept in the store per teleporter, and the question whether one is online. */
module TpStatus {
  import opened Store

  const TELEPORTER: Key := Key("teleporter")
  const TIMESTAMP: Key := Key("teleporter/heartbeat-timestamp")

  /** Used when the configuration names no timeout, in milliseconds. */
  const DEFAULT_TIMEOUT: int := 60000

  function HeartbeatPath(tp: Key): Path { [TELEPORTER, tp, TIMESTAMP] }

  function Heartbeat(tp: Key, now: int): Write { Write(HeartbeatPath(tp), Scalar(now)) }

  /** The entry is read as a whole and its timestamp looked up; a missing one means offline. Comparing against
      something that is no time throws. */
  function Online(state: Value, tp: Key, now: int, timeout: int): Result<bool> {
    var stamp := Get(GetIn(state, [TELEPORTER, tp]), TIMESTAMP);
    match stamp
    case Nil => Ok(false)
    case Scalar(h) => Ok(now < h + timeout)
    case Node(_) => Thrown
  }

  /** The timestamp looked at is the one at the three-key path, and the limit itself is already too late. */
  lemma OnlineReadsStamp(state: Value, tp: Key, now: int, timeout: int)
    ensures var stamp := GetIn(state, [Key("teleporter"), tp, Key("teleporter/heartbeat-timestamp")]);
            && (Online(state, tp, now, timeout) == Ok(true) <==> stamp.Scalar? && now - stamp.number < timeout)
            && (Online(state, tp, now, timeout) == Thrown <==> stamp.Node?)
  {
    ThreeSteps(state, tp);
  }

  /** A history in which everything that is not a heartbeat of `tp` is written elsewhere. */
  predicate Benign(writes: seq<Write>, tp: Key) {
    forall i :: 0 <= i < |writes| ==> IsHeartbeat(writes[i], tp) || Diverge(writes[i].path, HeartbeatPath(tp))
  }

  predicate IsHeartbeat(w: Write, tp: Key) { w.path == HeartbeatPath(tp) && w.value.Scalar? }

  lemma HeartbeatsOfOthersDiverge(tp: Key, other: Key, now: int)
    requires tp != other
    ensures Diverge(Heartbeat(other, now).path, HeartbeatPath(tp))
  {
    assert HeartbeatPath(other)[1] != HeartbeatPath(tp)[1];
  }

  /** The latest heartbeat of a teleporter. */
  function Latest(writes: seq<Write>, tp: Key): Value {
    if writes == [] then Nil
    else
      var last := writes[|writes| - 1];
      if IsHeartbeat(last, tp) then last.value else Latest(writes[..|writes| - 1], tp)
  }

  /** Maps all the way down to the timestamp, which is a number if it is there. */
  predicate Placed(state: Value, tp: Key) {
    && state.Node?
    && GetIn(state, [TELEPORTER]).Node?
    && !GetIn(state, [TELEPORTER, tp]).Scalar?
  }

  lemma ThreeSteps(state: Value, tp: Key)
    ensures GetIn(state, HeartbeatPath(tp)) == Get(GetIn(state, [TELEPORTER, tp]), TIMESTAMP)
    ensures GetIn(state, [TELEPORTER, tp]) == Get(GetIn(state, [TELEPORTER]), tp)
    ensures GetIn(state, [TELEPORTER]) == Get(state, TELEPORTER)
  {
    var p := HeartbeatPath(tp);
    var entry := Get(Get(state, TELEPORTER), tp);
    assert p[1..] == [tp, TIMESTAMP] && [tp, TIMESTAMP][1..] == [TIMESTAMP] && [TELEPORTER, tp][1..] == [tp];
    assert GetIn(entry, [TIMESTAMP]) == Get(entry, TIMESTAMP);
    assert GetIn(Get(state, TELEPORTER), [tp, TIMESTAMP]) == GetIn(entry, [TIMESTAMP]);
    assert GetIn(Get(state, TELEPORTER), [tp]) == entry;
  }

  /** A write elsewhere leaves a prefix of the heartbeat path as it was, or a map. */
  lemma PrefixSurvives(state: Value, w: Write, tp: Key, prefix: Path)
    requires prefix <= HeartbeatPath(tp) && Diverge(w.path, HeartbeatPath(tp))
    ensures GetIn(Written(state, w), prefix) == GetIn(state, prefix) || GetIn(Written(state, w), prefix).Node?
  {
    if AssocIn(state, w.path, w.value).Ok? {
      PathsCompare(w.path, prefix);
      if Diverge(w.path, prefix) {
        GetElsewhere(state, w.path, w.value, prefix);
      } else if prefix <= w.path && prefix != w.path {
        var rest := w.path[|prefix|..];
        assert w.path == prefix + rest;
        GetAbove(state, prefix, rest, w.value);
        AssocInSucceedsIff(GetIn(state, prefix), rest, w.value);
      }
    }
  }

  lemma WriteElsewhere(state: Value, w: Write, tp: Key)
    requires Placed(state, tp) && Diverge(w.path, HeartbeatPath(tp))
    ensures Placed(Written(state, w), tp)
    ensures GetIn(Written(state, w), HeartbeatPath(tp)) == GetIn(state, HeartbeatPath(tp))
  {
    hide Written;
    PrefixSurvives(state, w, tp, []);
    PrefixSurvives(state, w, tp, [TELEPORTER]);
    PrefixSurvives(state, w, tp, [TELEPORTER, tp]);
    TimestampSurvives(state, w, tp);
  }

  lemma TimestampSurvives(state: Value, w: Write, tp: Key)
    requires Diverge(w.path, HeartbeatPath(tp))
    ensures GetIn(Written(state, w), HeartbeatPath(tp)) == GetIn(state, HeartbeatPath(tp))
  {
    if AssocIn(state, w.path, w.value).Ok? {
      GetElsewhere(state, w.path, w.value, HeartbeatPath(tp));
    }
  }

  lemma HeartbeatLands(state: Value, w: Write, tp: Key)
    requires Placed(state, tp) && IsHeartbeat(w, tp)
    ensures Placed(Written(state, w), tp)
    ensures GetIn(Written(state, w), HeartbeatPath(tp)) == w.value
  {
    var p := HeartbeatPath(tp);
    assert p[..0] == [] && p[..1] == [TELEPORTER] && p[..2] == [TELEPORTER, tp];
    AssocInSucceedsIff(state, p, w.value);
    var after := AssocIn(state, p, w.value).value;
    GetAtOrBelow(state, p, w.value, []);
    assert p + [] == p;
    ThreeSteps(after, tp);
  }

  /** Whatever else was written, the store holds the latest heartbeat. */
  lemma {:induction false} StoreHoldsLatest(writes: seq<Write>, tp: Key)
    requires Benign(writes, tp)
    ensures Placed(StateAfter(writes), tp)
    ensures GetIn(StateAfter(writes), HeartbeatPath(tp)) == Latest(writes, tp)
  {
    hide Written, Diverge, GetIn;
    if writes == [] {
      NothingStored(tp);
    } else {
      var k := |writes| - 1;
      StoreHoldsLatest(writes[..k], tp);
      if IsHeartbeat(writes[k], tp) {
        HeartbeatLands(StateAfter(writes[..k]), writes[k], tp);
      } else {
        WriteElsewhere(StateAfter(writes[..k]), writes[k], tp);
      }
    }
  }

  lemma NothingStored(tp: Key)
    ensures Placed(INITIAL, tp) && GetIn(INITIAL, HeartbeatPath(tp)) == Nil
  {
    ThreeSteps(INITIAL, tp);
  }

  /** A teleporter is online exactly when it has beaten and its latest heartbeat is within the timeout; the question
      never throws. */
  lemma OnlineIffLatest(writes: seq<Write>, tp: Key, now: int, timeout: int)
    requires Benign(writes, tp)
    ensures Online(StateAfter(writes), tp, now, timeout)
            == Ok(Latest(writes, tp).Scalar? && now < Latest(writes, tp).number + timeout)
  {
    StoreHoldsLatest(writes, tp);
    ThreeSteps(StateAfter(writes), tp);
    LatestIsTime(writes, tp);
  }

  lemma {:induction false} LatestIsTime(writes: seq<Write>, tp: Key)
    ensures !Latest(writes, tp).Node?
  {
    if writes != [] {
      LatestIsTime(writes[..|writes| - 1], tp);
    }
  }

  /** The clock never went back between two heartbeats of this teleporter. */
  predicate ClockAdvances(writes: seq<Write>, tp: Key) {
    forall i, j :: 0 <= i < j < |writes| && IsHeartbeat(writes[i], tp) && IsHeartbeat(writes[j], tp) ==>
      writes[i].value.number <= writes[j].value.number
  }

  ghost predicate SomeRecent(writes: seq<Write>, tp: Key, now: int, timeout: int) {
    exists i :: 0 <= i < |writes| && IsHeartbeat(writes[i], tp) && now < writes[i].value.number + timeout
  }

  lemma {:induction false} LatestIsGreatest(writes: seq<Write>, tp: Key, i: nat)
    requires ClockAdvances(writes, tp) && i < |writes| && IsHeartbeat(writes[i], tp)
    ensures Latest(writes, tp).Scalar? && writes[i].value.number <= Latest(writes, tp).number
  {
    var k := |writes| - 1;
    if !IsHeartbeat(writes[k], tp) {
      LatestIsGreatest(writes[..k], tp, i);
    }
  }

  lemma {:induction false} LatestIsSome(writes: seq<Write>, tp: Key) returns (i: nat)
    requires Latest(writes, tp).Scalar?
    ensures i < |writes| && IsHeartbeat(writes[i], tp) && writes[i].value == Latest(writes, tp)
  {
    i := |writes| - 1;
    if !IsHeartbeat(writes[i], tp) {
      i := LatestIsSome(writes[..i], tp);
    }
  }

  /** The latest own heartbeat carries the greatest time of them all. */
  predicate LatestIsNewest(writes: seq<Write>, tp: Key) {
    forall i :: 0 <= i < |writes| && IsHeartbeat(writes[i], tp) ==>
      Latest(writes, tp).Scalar? && writes[i].value.number <= Latest(writes, tp).number
  }

  /** The exact condition: the answers at all times are those of the history if and only if no own heartbeat is newer
      than the latest one written. Clocks may be set back as long as they catch up. */
  lemma FaithfulIffLatestIsNewest(writes: seq<Write>, tp: Key, timeout: int)
    requires Benign(writes, tp)
    ensures (forall now :: Online(StateAfter(writes), tp, now, timeout) == Ok(SomeRecent(writes, tp, now, timeout)))
            <==> LatestIsNewest(writes, tp)
  {
    hide Online, StateAfter;
    if LatestIsNewest(writes, tp) {
      forall now
        ensures Online(StateAfter(writes), tp, now, timeout) == Ok(SomeRecent(writes, tp, now, timeout))
      {
        OnlineIffLatest(writes, tp, now, timeout);
        if Latest(writes, tp).Scalar? {
          var i := LatestIsSome(writes, tp);
        }
      }
    } else {
      // Just before the newer heartbeat runs out it still counts, but the latest one no longer does.
      var i :| 0 <= i < |writes| && IsHeartbeat(writes[i], tp)
        && !(Latest(writes, tp).Scalar? && writes[i].value.number <= Latest(writes, tp).number);
      var now := writes[i].value.number + timeout - 1;
      OnlineIffLatest(writes, tp, now, timeout);
      assert SomeRecent(writes, tp, now, timeout);
    }
  }

  /** Non-decreasing times meet it. */
  lemma AdvancingClockIsNewest(writes: seq<Write>, tp: Key)
    requires ClockAdvances(writes, tp)
    ensures LatestIsNewest(writes, tp)
  {
    forall i | 0 <= i < |writes| && IsHeartbeat(writes[i], tp)
      ensures Latest(writes, tp).Scalar? && writes[i].value.number <= Latest(writes, tp).number
    {
      LatestIsGreatest(writes, tp, i);
    }
  }

  /** Over every history at non-decreasing times, with heartbeats of any teleporters and writes elsewhere in between, a
      teleporter is online iff some past heartbeat of its own is within the timeout. */
  lemma OnlineIffRecentHeartbeat(writes: seq<Write>, tp: Key, now: int, timeout: int)
    requires Benign(writes, tp) && ClockAdvances(writes, tp)
    ensures Online(StateAfter(writes), tp, now, timeout) == Ok(SomeRecent(writes, tp, now, timeout))
  {
    AdvancingClockIsNewest(writes, tp);
    FaithfulIffLatestIsNewest(writes, tp, timeout);
  }

  /** If the clock is set back between two heartbeats, the later one hides the earlier although that is still within the
      timeout. */
  lemma ClockStepHidesHeartbeat(tp: Key)
    ensures var writes := [Heartbeat(tp, 100000), Heartbeat(tp, 0)];
            && SomeRecent(writes, tp, 100000, DEFAULT_TIMEOUT)
            && Online(StateAfter(writes), tp, 100000, DEFAULT_TIMEOUT) == Ok(false)
  {
    var writes := [Heartbeat(tp, 100000), Heartbeat(tp, 0)];
    assert IsHeartbeat(writes[0], tp) && IsHeartbeat(writes[1], tp);
    OnlineIffLatest(writes, tp, 100000, DEFAULT_TIMEOUT);
  }

  // ---- the two operations ------------------------------------------------------------------------------

  method HandleTeleporterHeartbeat(db: Atom, tp: Key, now: int)
    requires db.Valid()
    modifies db
    ensures db.Valid()
    ensures db.writes
            == old(db.writes) + [Write([Key("teleporter"), tp, Key("teleporter/heartbeat-timestamp")], Scalar(now))]
  {
    var r := db.Wr(HeartbeatPath(tp), Scalar(now));
  }

  /** Answers from the history: some own heartbeat lies within the timeout. */
  method TeleporterOnline(db: Atom, tp: Key, now: int, timeout: int) returns (online: Result<bool>)
    requires db.Valid()
    ensures online == Online(StateAfter(db.writes), tp, now, timeout)
    ensures Benign(db.writes, tp) && LatestIsNewest(db.writes, tp) ==>
              online == Ok(SomeRecent(db.writes, tp, now, timeout))
  {
    if Benign(db.writes, tp) && LatestIsNewest(db.writes, tp) {
      FaithfulIffLatestIsNewest(db.writes, tp, timeout);
    }
    var teleporter := db.Rd([TELEPORTER, tp]);
    match Get(teleporter, TIMESTAMP)
    case Nil => online := Ok(false);
    case Scalar(h) => online := Ok(now < h + timeout);
    case Node(_) => online := Thrown;
  }
}
