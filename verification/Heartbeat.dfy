/**
 maintenance/heartbeat.ts and the scheduled part of `HealthService.check`: which ticks write the heartbeat
 is enough for its readers.  Ticks come at every minute boundary, KV works, and times are in milliseconds.
 */
module Heartbeat {
  import opened Options

  datatype Status = Ok | Degraded

  datatype Record = Record(timestamp: int, status: Status)

  /** What the KV value can be: a plain number, the JSON object, or neither. */
  datatype Raw = PlainNumber(timestamp: int) | Json(record: Record) | Malformed

  datatype Entry = Entry(raw: Raw, expires: int)

  datatype Decision = OkHourly | OkRecovery | DegradedKeepalive | Skipped

  const MINUTE := 60_000
  const HEALTHY_HEARTBEAT_FRESHNESS_MS := 70 * MINUTE
  const SCHEDULED_STARTUP_WINDOW_MS := 10 * MINUTE
  const TWO_DAYS := 2 * 24 * 60 * MINUTE

  /** `parseHeartbeat` of what KV answers at a time. */
  function Read(slot: Option<Entry>, now: int): Option<Record> {
    if slot == None || slot.value.expires <= now then None
    else
      match slot.value.raw
      case PlainNumber(timestamp) => Some(Record(timestamp, Ok))
      case Json(record) => Some(record)
      case Malformed => None
  }

  /** `shouldWriteHeartbeat`, for the tick of a minute. */
  function ShouldWrite(previous: Option<Record>, status: Status, minute: int): Decision {
    if status == Degraded then DegradedKeepalive
    else if minute % 60 == 0 then OkHourly
    else if previous.Some? && previous.value.status == Degraded then OkRecovery
    else Skipped
  }

  function Written(minute: int, status: Status): Option<Entry> {
    Some(Entry(Json(Record(minute * MINUTE, status)), minute * MINUTE + TWO_DAYS))
  }

  /** What one tick leaves in KV. */
  function Tick(slot: Option<Entry>, minute: int, failing: bool): Option<Entry> {
    var status := if failing then Degraded else Ok;
    if ShouldWrite(Read(slot, minute * MINUTE), status, minute) == Skipped then slot else Written(minute, status)
  }

  class Trigger {
    var slot: Option<Entry>

    constructor (slot: Option<Entry>)
      ensures this.slot == slot
    {
      this.slot := slot;
    }

    method WriteHeartbeat(minute: int, status: Status)
      modifies this
      ensures slot == Written(minute, status)
    {
      slot := Some(Entry(Json(Record(minute * MINUTE, status)), minute * MINUTE + TWO_DAYS));
    }

    /** A failing payload is written down and thrown again. */
    method RunWithHeartbeat(minute: int, failing: bool) returns (thrown: bool)
      modifies this
      ensures slot == Tick(old(slot), minute, failing) && thrown == failing
    {
      var previous := Read(slot, minute * MINUTE);
      if failing {
        WriteHeartbeat(minute, Degraded);
        return true;
      }
      var decision := ShouldWrite(previous, Ok, minute);
      thrown := false;
      if decision == Skipped {
        return;
      }
      WriteHeartbeat(minute, Ok);
    }

    /** Ticks of consecutive minutes. */
    method RunAll(first: int, failing: seq<bool>)
      modifies this
      ensures slot == Ticks(old(slot), first, failing)
    {
      var i := 0;
      while i < |failing|
        invariant 0 <= i <= |failing| && slot == Ticks(old(slot), first, failing[..i])
      {
        assert failing[..i + 1][..i] == failing[..i];
        var _ := RunWithHeartbeat(first + i, failing[i]);
        i := i + 1;
      }
      assert failing[..i] == failing;
    }
  }

  /** From the minute `first` on, one tick a minute. */
  function Ticks(slot: Option<Entry>, first: int, failing: seq<bool>): Option<Entry>
    decreases |failing|
  {
    if failing == [] then slot
    else Tick(Ticks(slot, first, failing[..|failing| - 1]), first + |failing| - 1, failing[|failing| - 1])
  }

  function Newest(first: int, failing: seq<bool>): int {
    first + |failing| - 1
  }

  function HourOf(minute: int): int {
    minute - minute % 60
  }

  // ------------------------------------------------------------------ what readers find

  /** Main result: whatever was there before, a record that is there carries the newest tick's status. */
  lemma RecordIsCurrent(slot: Option<Entry>, first: int, failing: seq<bool>)
    requires failing != []
    ensures var n := Newest(first, failing);
            var record := Read(Ticks(slot, first, failing), n * MINUTE);
            record.Some? ==> record.value.status == if failing[|failing| - 1] then Degraded else Ok
  {
  }

  /** Main result: once a tick has run on the hour, the record is from this hour, and so at most 59 minutes old. */
  lemma {:induction false} RecordIsFromThisHour(slot: Option<Entry>, first: int, failing: seq<bool>)
    requires failing != [] && first <= HourOf(Newest(first, failing))
    ensures var n := Newest(first, failing);
            var end := Ticks(slot, first, failing);
            end.Some? && end.value.raw.Json?
            && HourOf(n) * MINUTE <= end.value.raw.record.timestamp <= n * MINUTE
            && end.value.expires == end.value.raw.record.timestamp + TWO_DAYS
            && n * MINUTE - end.value.raw.record.timestamp <= 59 * MINUTE
    decreases |failing|
  {
    var n := Newest(first, failing);
    if n % 60 != 0 {
      var most := failing[..|failing| - 1];
      assert HourOf(n - 1) == HourOf(n);
      RecordIsFromThisHour(slot, first, most);
    }
  }

  // ------------------------------------------------------------------ HealthService.check

  datatype Scheduled = Healthy | Waiting | Stale

  function Check(slot: Option<Entry>, now: int, deployedAt: Option<int>): Scheduled {
    var record := Read(slot, now);
    if record == None then
      if deployedAt.Some? && now - deployedAt.value > SCHEDULED_STARTUP_WINDOW_MS then Stale else Waiting
    else if record.value.status == Degraded then Healthy
    else if now - record.value.timestamp <= HEALTHY_HEARTBEAT_FRESHNESS_MS then Healthy
    else Stale
  }

  datatype Alert = NoAlert | TriggerStale | TriggerDegraded

  /** The operational alert about the trigger. */
  function AlertOf(slot: Option<Entry>, now: int, deployedAt: Option<int>): Alert {
    if Check(slot, now, deployedAt) == Stale then TriggerStale
    else
      var record := Read(slot, now);
      if record.Some? && record.value.status == Degraded then TriggerDegraded else NoAlert
  }

  /**
   Main result.  While the newest tick is at most 11 minutes old, the check reports the trigger healthy, and
   alerts exactly if that tick failed.
   */
  lemma LiveTriggerIsHealthy(slot: Option<Entry>, first: int, failing: seq<bool>, now: int, deployedAt: Option<int>)
    requires failing != [] && first <= HourOf(Newest(first, failing))
    requires Newest(first, failing) * MINUTE <= now <= Newest(first, failing) * MINUTE + 11 * MINUTE
    ensures var end := Ticks(slot, first, failing);
            Check(end, now, deployedAt) == Healthy
            && AlertOf(end, now, deployedAt) == if failing[|failing| - 1] then TriggerDegraded else NoAlert
  {
    RecordIsFromThisHour(slot, first, failing);
    RecordIsCurrent(slot, first, failing);
    hide Ticks, HourOf;
  }

  /** Eleven minutes is exact: a healthy hour that falls silent after its last tick is stale a moment later. */
  lemma SilentTriggerIsStale(first: int, failing: seq<bool>, now: int, deployedAt: Option<int>)
    requires |failing| == 60 && first % 60 == 0 && forall i :: 0 <= i < 60 ==> !failing[i]
    requires now == Newest(first, failing) * MINUTE + 11 * MINUTE + 1
    ensures Check(Ticks(None, first, failing), now, deployedAt) == Stale
  {
    QuietHour(first, failing, 60);
    assert failing[..60] == failing;
  }

  /** Within the hour, a healthy tick leaves the record of a healthy tick on the hour alone. */
  lemma QuietTick(first: int, k: nat)
    requires 0 < k < 60 && first % 60 == 0
    ensures Tick(Written(first, Ok), first + k, false) == Written(first, Ok)
  {
    assert (first + k) % 60 == k;
  }

  lemma {:induction false} QuietHour(first: int, failing: seq<bool>, n: nat)
    requires 1 <= n <= |failing| <= 60 && first % 60 == 0 && forall i :: 0 <= i < |failing| ==> !failing[i]
    ensures Ticks(None, first, failing[..n]) == Written(first, Ok)
  {
    assert failing[..n][..n - 1] == failing[..n - 1];
    if n > 1 {
      hide Tick, Written;
      QuietHour(first, failing, n - 1);
      QuietTick(first, n - 1);
    } else {
      assert Ticks(None, first, failing[..0]) == None;
    }
  }

  /**
   A trigger that falls silent after a tick that failed is reported stale if and only if two days have passed, and the
   deployment is known to be older than the start-up window: until then its last record reads as a sign of life.
   */
  lemma SilentAfterFailure(slot: Option<Entry>, first: int, failing: seq<bool>, now: int, deployedAt: Option<int>)
    requires failing != [] && failing[|failing| - 1] && Newest(first, failing) * MINUTE <= now
    ensures Check(Ticks(slot, first, failing), now, deployedAt) == Stale
            <==> Newest(first, failing) * MINUTE + TWO_DAYS <= now
                 && deployedAt.Some? && now - deployedAt.value > SCHEDULED_STARTUP_WINDOW_MS
  {
    var before := Ticks(slot, first, failing[..|failing| - 1]);
    assert Ticks(slot, first, failing) == Tick(before, Newest(first, failing), true);
    hide Ticks;
  }

  /**
   After a tick that did not fail, it is reported stale from 70 minutes after that tick at the latest, for two days
   from its hour.
   */
  lemma SilentAfterSuccess(slot: Option<Entry>, first: int, failing: seq<bool>, now: int, deployedAt: Option<int>)
    requires failing != [] && !failing[|failing| - 1] && first <= HourOf(Newest(first, failing))
    requires Newest(first,
             failing) * MINUTE + HEALTHY_HEARTBEAT_FRESHNESS_MS < now < HourOf(Newest(first,
                 failing)) * MINUTE + TWO_DAYS
    ensures Check(Ticks(slot, first, failing), now, deployedAt) == Stale
  {
    RecordIsFromThisHour(slot, first, failing);
    RecordIsCurrent(slot, first, failing);
    hide Ticks, HourOf;
  }

  /** An absent record does not count as a recovery: healthy ticks write none before the next one on the hour. */
  lemma {:induction false} AbsentStaysAbsent(first: int, failing: seq<bool>)
    requires forall i :: 0 <= i < |failing| ==> !failing[i] && (first + i) % 60 != 0
    ensures Ticks(None, first, failing) == None
    decreases |failing|
  {
    if failing != [] {
      var most := failing[..|failing| - 1];
      assert forall i :: 0 <= i < |most| ==> most[i] == failing[i];
      AbsentStaysAbsent(first, most);
    }
  }

  /** A healthy tick within the hour leaves an unreadable value alone, although it has no record to show. */
  lemma MalformedIsNotRepaired(minute: int, expires: int)
    requires minute % 60 != 0
    ensures var slot := Some(Entry(Malformed, expires));
            Tick(slot, minute, false) == slot && Read(Tick(slot, minute, false), minute * MINUTE) == None
  {
  }
}
