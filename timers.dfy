/** The server's timer registry: the global `active_timers` dictionary and
    `timer_counter` of skills.py, with the operations that add, delete, list
    and purge timers. Clock readings are parameters (`now`, in microseconds,
    the resolution of Python's datetime); the background countdown thread
    is not modelled. */
module Timers {
  import opened Text

  const MicrosPerSecond: int := 1_000_000
  const MicrosPerMinute: int := 60 * MicrosPerSecond

  /** One entry of `active_timers`: the timer_info record of set_timer. */
  datatype Timer = Timer(id: int, name: string, durationMinutes: int, endTime: int, createdAt: int)

  /** A timer identifier as the tool call hands it over: a JSON integer, a
      JSON string or anything else (null, a float, ...), shown as `shown`.
      A JSON bool passes isinstance(..., int), so true and false arrive as
      ById(1) and ById(0). */
  datatype Identifier = ById(n: int) | ByName(s: string) | Unsupported(shown: string)

  /** The dictionary delete_timer returns: {"message": ...} or {"error": ...}. */
  datatype Outcome = Message(text: string) | Error(text: string)

  /** One element of list_timers' "timers" list. */
  datatype Listed = Listed(id: int, name: string, remaining: string)

  /** The dictionary list_timers returns. */
  datatype ListResult = NoActiveTimers | TimerList(timers: seq<Listed>)

  // ------------------------------------------------------------ the table

  predicate DistinctIds(ts: seq<Timer>)
  {
    forall i, j :: 0 <= i < j < |ts| ==> ts[i].id != ts[j].id
  }

  predicate HasId(ts: seq<Timer>, id: int)
  {
    exists i :: 0 <= i < |ts| && ts[i].id == id
  }

  /** Position of the entry with key `id`, or |ts| when there is none. */
  function IndexOfId(ts: seq<Timer>, id: int): (k: nat)
    ensures k <= |ts|
    ensures k < |ts| ==> ts[k].id == id
    ensures k == |ts| <==> !HasId(ts, id)
  {
    if ts == [] then 0
    else if ts[0].id == id then 0
    else
      var k := IndexOfId(ts[1..], id);
      assert HasId(ts[1..], id) ==> HasId(ts, id) by {
        if HasId(ts[1..], id) { var i :| 0 <= i < |ts| - 1 && ts[1..][i].id == id; assert ts[i + 1].id == id; }
      }
      assert HasId(ts, id) ==> HasId(ts[1..], id) by {
        if HasId(ts, id) { var i :| 0 <= i < |ts| && ts[i].id == id; assert i > 0 && ts[1..][i - 1].id == id; }
      }
      k + 1
  }

  /** Case-insensitive name equality: `a.lower() == b.lower()`. */
  predicate SameName(a: string, b: string)
  {
    ToLower(a) == ToLower(b)
  }

  /** Position of the first entry, in insertion order, whose name matches
      `name` case-insensitively, or |ts| when none does. */
  function FirstNameMatch(ts: seq<Timer>, name: string): (k: nat)
    ensures k <= |ts|
    ensures k < |ts| ==> SameName(ts[k].name, name)
    ensures forall j :: 0 <= j < k ==> !SameName(ts[j].name, name)
  {
    if ts == [] then 0
    else if SameName(ts[0].name, name) then 0
    else FirstNameMatch(ts[1..], name) + 1
  }

  function RemoveAt(ts: seq<Timer>, k: nat): seq<Timer>
    requires k < |ts|
  {
    ts[..k] + ts[k + 1..]
  }

  lemma RemoveAtKeepsDistinct(ts: seq<Timer>, k: nat)
    requires k < |ts| && DistinctIds(ts)
    ensures DistinctIds(RemoveAt(ts, k))
    ensures forall t :: t in RemoveAt(ts, k) ==> t in ts
    ensures !HasId(RemoveAt(ts, k), ts[k].id)
  {
    var r := RemoveAt(ts, k);
    forall i, j | 0 <= i < j < |r| ensures r[i].id != r[j].id {
      var i' := if i < k then i else i + 1;
      var j' := if j < k then j else j + 1;
      assert r[i] == ts[i'] && r[j] == ts[j'];
    }
    forall i | 0 <= i < |r| ensures r[i].id != ts[k].id {
      assert r[i] == ts[if i < k then i else i + 1];
    }
  }

  // ---------------------------------------------------------- delete_timer

  function NotFoundText(ident: Identifier): string
  {
    var shown := match ident
      case ById(n) => IntToString(n)
      case ByName(s) => s
      case Unsupported(s) => s;
    "Timer '" + shown + "' not found"
  }

  /** What delete_timer does to the table and what it answers: an integer
      that is a key removes that key and names the stored timer; a string
      removes the first entry whose name matches and echoes the string as
      given; anything else, and any identifier that matches nothing,
      changes nothing and answers with an error. */
  function Delete(ts: seq<Timer>, ident: Identifier): (seq<Timer>, Outcome)
  {
    match ident
    case ById(n) =>
      var k := IndexOfId(ts, n);
      if k < |ts| then (RemoveAt(ts, k), Message("Timer '" + ts[k].name + "' deleted successfully"))
      else (ts, Error(NotFoundText(ident)))
    case ByName(s) =>
      var k := FirstNameMatch(ts, s);
      if k < |ts| then (RemoveAt(ts, k), Message("Timer '" + s + "' deleted successfully"))
      else (ts, Error(NotFoundText(ident)))
    case Unsupported(_) => (ts, Error(NotFoundText(ident)))
  }

  /** Deleting a present integer key removes exactly that key. */
  lemma DeleteByIdRemovesExactlyThatKey(ts: seq<Timer>, n: int)
    requires DistinctIds(ts) && HasId(ts, n)
    ensures var (ts', out) := Delete(ts, ById(n));
      && out.Message?
      && |ts'| == |ts| - 1
      && !HasId(ts', n)
      && DistinctIds(ts')
      && forall t :: t in ts && t.id != n ==> t in ts'
  {
    var k := IndexOfId(ts, n);
    RemoveAtKeepsDistinct(ts, k);
    var r := RemoveAt(ts, k);
    forall t | t in ts && t.id != n ensures t in r {
      var i :| 0 <= i < |ts| && ts[i] == t;
      assert i != k;
      if i < k { assert r[i] == t; } else { assert r[i - 1] == t; }
    }
  }

  /** An identifier that matches no entry is an error and leaves the table
      unchanged; so is any identifier that is neither an integer nor a string. */
  lemma DeleteMissLeavesTable(ts: seq<Timer>, ident: Identifier)
    requires ident.Unsupported?
      || (ident.ById? && !HasId(ts, ident.n))
      || (ident.ByName? && forall t :: t in ts ==> !SameName(t.name, ident.s))
    ensures Delete(ts, ident) == (ts, Error(NotFoundText(ident)))
  {
  }

  /** Deleting by name removes only the first matching entry in insertion
      order: everything before it is unchanged and every later timer, even
      one with the same name, stays. */
  lemma DeleteByNameRemovesFirstOnly(ts: seq<Timer>, s: string, k: nat)
    requires k < |ts| && SameName(ts[k].name, s)
    requires forall j :: 0 <= j < k ==> !SameName(ts[j].name, s)
    ensures Delete(ts, ByName(s)) == (ts[..k] + ts[k + 1..], Message("Timer '" + s + "' deleted successfully"))
  {
    var f := FirstNameMatch(ts, s);
    assert f >= k;
  }

  // ------------------------------------------------------ remaining time

  predicate Running(t: Timer, now: int)
  {
    t.endTime - now > 0
  }

  /** The timers still running at `now`, in insertion order. */
  function Live(ts: seq<Timer>, now: int): (r: seq<Timer>)
    ensures |r| <= |ts|
    ensures forall i :: 0 <= i < |r| ==> Running(r[i], now)
  {
    if ts == [] then []
    else if Running(ts[0], now) then [ts[0]] + Live(ts[1..], now)
    else Live(ts[1..], now)
  }

  /** Live keeps exactly the running timers. */
  lemma {:induction false} LiveMembers(ts: seq<Timer>, now: int)
    ensures forall t :: t in Live(ts, now) <==> t in ts && Running(t, now)
  {
    if ts != [] {
      LiveMembers(ts[1..], now);
      assert ts == [ts[0]] + ts[1..];
    }
  }

  lemma {:induction false} LiveOfPrefix(ts: seq<Timer>, i: nat, now: int)
    requires i < |ts|
    ensures Live(ts[..i + 1], now) == Live(ts[..i], now) + (if Running(ts[i], now) then [ts[i]] else [])
  {
    if i > 0 {
      assert ts[..i + 1][1..] == ts[1..][..i];
      assert ts[..i][1..] == ts[1..][..i - 1];
      LiveOfPrefix(ts[1..], i - 1, now);
    } else {
      assert ts[..1][1..] == [];
    }
  }

  /** One step of a purge over a snapshot: the first i entries are already
      purged, entry i is kept when running and removed at its position
      otherwise. */
  lemma PurgeStep(snapshot: seq<Timer>, i: nat, now: int, ts: seq<Timer>)
    requires i < |snapshot| && ts == Live(snapshot[..i], now) + snapshot[i..]
    ensures var p := |Live(snapshot[..i], now)|;
      && p < |ts| && ts[p] == snapshot[i]
      && (Running(snapshot[i], now) ==> ts == Live(snapshot[..i + 1], now) + snapshot[i + 1..])
      && (!Running(snapshot[i], now) ==> ts[..p] + ts[p + 1..] == Live(snapshot[..i + 1], now) + snapshot[i + 1..])
  {
    var t := snapshot[i];
    var kept := Live(snapshot[..i], now);
    var rest := snapshot[i + 1..];
    LiveOfPrefix(snapshot, i, now);
    assert snapshot[i..] == [t] + rest;
    Around(kept, t, rest);
    if Running(t, now) {
      assert Live(snapshot[..i + 1], now) == kept + [t];
    } else {
      assert Live(snapshot[..i + 1], now) == kept;
    }
  }

  /** The pieces of a sequence split around one element. */
  lemma Around(a: seq<Timer>, x: Timer, b: seq<Timer>)
    ensures var s := a + ([x] + b);
      && s[|a|] == x && s[..|a|] == a && s[|a| + 1..] == b && s == (a + [x]) + b
  {
    var s := a + ([x] + b);
    assert s[..|a|] == a;
    assert s[|a| + 1..] == b;
  }

  lemma {:induction false} LiveKeepsDistinct(ts: seq<Timer>, now: int)
    requires DistinctIds(ts)
    ensures DistinctIds(Live(ts, now))
  {
    if ts != [] {
      assert DistinctIds(ts[1..]) by {
        forall i, j | 0 <= i < j < |ts| - 1 ensures ts[1..][i].id != ts[1..][j].id { assert ts[i + 1].id != ts[j + 1].id; }
      }
      LiveKeepsDistinct(ts[1..], now);
      if Running(ts[0], now) {
        var r := [ts[0]] + Live(ts[1..], now);
        LiveMembers(ts[1..], now);
        forall i, j | 0 <= i < j < |r| ensures r[i].id != r[j].id {
          if i == 0 {
            assert r[j] in ts[1..];
            var m :| 0 <= m < |ts| - 1 && ts[1..][m] == r[j];
            assert ts[m + 1] == r[j];
          }
        }
      }
    }
  }

  /** Whole minutes left: int(total_seconds / 60) for a positive span. */
  function RemainingMinutes(micros: int): int
  {
    micros / MicrosPerMinute
  }

  /** The seconds part: timedelta.seconds % 60, and likewise
      int(total_seconds % 60), for a positive span. */
  function RemainingSeconds(micros: int): int
  {
    (micros / MicrosPerSecond) % 60
  }

  lemma MinutesAndSeconds(micros: int)
    requires micros > 0
    ensures RemainingMinutes(micros) >= 0 && 0 <= RemainingSeconds(micros) < 60
    ensures RemainingMinutes(micros) * 60 + RemainingSeconds(micros) == micros / MicrosPerSecond
  {
  }

  /** list_timers' "remaining" text, e.g. "4m 59s": digits for the whole
      minutes, then for the seconds under a minute, and no ':' anywhere. */
  function ShortForm(micros: int): (r: string)
    requires micros > 0
    ensures ':' !in r
    ensures NatToString(RemainingMinutes(micros)) + "m " <= r
  {
    NatToString(RemainingMinutes(micros)) + "m " + NatToString(RemainingSeconds(micros)) + "s"
  }

  function ListedOf(t: Timer, now: int): Listed
    requires Running(t, now)
  {
    Listed(t.id, t.name, ShortForm(t.endTime - now))
  }

  /** list_timers' "timers": one entry per running timer, in table order. */
  function Listing(ts: seq<Timer>, now: int): (r: seq<Listed>)
    ensures |r| == |Live(ts, now)|
  {
    if ts == [] then []
    else if Running(ts[0], now) then [ListedOf(ts[0], now)] + Listing(ts[1..], now)
    else Listing(ts[1..], now)
  }

  /** Entry i of the listing describes running timer i. */
  lemma {:induction false} ListingAt(ts: seq<Timer>, now: int, i: nat)
    requires i < |Listing(ts, now)|
    ensures Listing(ts, now)[i] == ListedOf(Live(ts, now)[i], now)
  {
    if Running(ts[0], now) {
      if i > 0 { ListingAt(ts[1..], now, i - 1); }
    } else {
      ListingAt(ts[1..], now, i);
    }
  }

  lemma {:induction false} ListingOfPrefix(ts: seq<Timer>, i: nat, now: int)
    requires i < |ts|
    ensures Listing(ts[..i + 1], now) == Listing(ts[..i], now) + (if Running(ts[i], now) then [ListedOf(ts[i], now)] else [])
  {
    if i > 0 {
      assert ts[..i + 1][1..] == ts[1..][..i];
      assert ts[..i][1..] == ts[1..][..i - 1];
      ListingOfPrefix(ts[1..], i - 1, now);
    } else {
      assert ts[..1][1..] == [];
    }
  }

  /** Every timer list_timers reports has time left, and each one is a
      timer of the table under its own id and name. */
  lemma ListingReportsRunningTimers(ts: seq<Timer>, now: int, i: nat)
    requires i < |Listing(ts, now)|
    ensures exists t :: t in ts && Running(t, now) && Listing(ts, now)[i] == Listed(t.id, t.name, ShortForm(t.endTime - now))
  {
    var t := Live(ts, now)[i];
    ListingAt(ts, now, i);
    LiveMembers(ts, now);
    assert t in Live(ts, now);
  }

  // ------------------------------------------- list_timers, as written

  /** What the loop of skills.py:229-241 does as written. It deletes from
      `active_timers` while iterating `active_timers.items()`; CPython then
      raises RuntimeError ("dictionary changed size during iteration") on the
      iterator's next step, which comes even after the last entry. */
  datatype AsWritten = Completed(result: ListResult, table: seq<Timer>) | Crashed(table: seq<Timer>)

  function ListTimersAsWritten(ts: seq<Timer>, now: int): (r: AsWritten)
    ensures r.Crashed? <==> exists t :: t in ts && !Running(t, now)
  {
    if ts == [] then Completed(NoActiveTimers, ts)
    else
      var k := FirstExpired(ts, now);
      if k == |ts| then
        assert forall t :: t in ts ==> Running(t, now) by {
          forall t | t in ts ensures Running(t, now) { var i :| 0 <= i < |ts| && ts[i] == t; }
        }
        Completed(TimerList(Listing(ts, now)), ts)
      else
        assert ts[k] in ts;
        Crashed(RemoveAt(ts, k))
  }

  function FirstExpired(ts: seq<Timer>, now: int): (k: nat)
    ensures k <= |ts|
    ensures k < |ts| ==> !Running(ts[k], now)
    ensures forall j :: 0 <= j < k ==> Running(ts[j], now)
  {
    if ts == [] then 0
    else if !Running(ts[0], now) then 0
    else FirstExpired(ts[1..], now) + 1
  }

  /** The input that shows it: one expired timer. The code as written
      removes it and then raises instead of answering with an empty list. */
  lemma ListTimersAsWrittenCrashesOnExpiredTimer(t: Timer, now: int)
    requires t.endTime <= now
    ensures ListTimersAsWritten([t], now) == Crashed([])
    ensures exists t' :: t' in [t] && !Running(t', now)
  {
    assert [t][..0] + [t][1..] == [];
  }

  // ---------------------------------------------------------- the registry

  class Registry {
    /** active_timers, in insertion order (dictionary keys are the ids). */
    var timers: seq<Timer>
    /** timer_counter. */
    var counter: int

    ghost predicate Valid()
      reads this
    {
      && DistinctIds(timers)
      && counter >= 0
      && forall i :: 0 <= i < |timers| ==> 0 < timers[i].id <= counter
    }

    constructor ()
      ensures Valid() && timers == [] && counter == 0
    {
      timers := [];
      counter := 0;
    }

    /** set_timer's registry part: the next counter value becomes the id,
        an empty name becomes "Timer {id}", and the new entry is added. */
    method SetTimer(durationMinutes: int, name: string, now: int) returns (t: Timer)
      requires Valid()
      modifies this
      ensures Valid()
      ensures counter == old(counter) + 1 && t.id == counter
      ensures !HasId(old(timers), t.id)
      ensures timers == old(timers) + [t]
      ensures t.name == if name == "" then "Timer " + IntToString(t.id) else name
      ensures t.durationMinutes == durationMinutes && t.createdAt == now
      ensures t.endTime == now + durationMinutes * MicrosPerMinute
    {
      counter := counter + 1;
      var id := counter;
      var n := if name == "" then "Timer " + IntToString(id) else name;
      t := Timer(id, n, durationMinutes, now + durationMinutes * MicrosPerMinute, now);
      timers := timers + [t];
    }

    /** delete_timer: the key test first, then the name scan over a
        snapshot of the entries in insertion order. */
    method DeleteTimer(ident: Identifier) returns (out: Outcome)
      requires Valid()
      modifies this`timers
      ensures Valid()
      ensures (timers, out) == Delete(old(timers), ident)
    {
      if ident.ById? {
        var k := IndexOfId(timers, ident.n);
        if k < |timers| {
          out := Message("Timer '" + timers[k].name + "' deleted successfully");
          RemoveAtKeepsDistinct(timers, k);
          timers := RemoveAt(timers, k);
          return;
        }
      }
      if ident.ByName? {
        var snapshot := timers;
        var i := 0;
        while i < |snapshot|
          invariant 0 <= i <= |snapshot| && timers == snapshot
          invariant forall j :: 0 <= j < i ==> !SameName(snapshot[j].name, ident.s)
        {
          if ToLower(snapshot[i].name) == ToLower(ident.s) {
            assert FirstNameMatch(snapshot, ident.s) == i;
            out := Message("Timer '" + ident.s + "' deleted successfully");
            RemoveAtKeepsDistinct(timers, i);
            timers := RemoveAt(timers, i);
            return;
          }
          i := i + 1;
        }
        assert FirstNameMatch(snapshot, ident.s) == |snapshot|;
      }
      out := Error(NotFoundText(ident));
    }

    /** list_timers, iterating a snapshot of the entries (as app.py's
        handle_get_timers does) so that removing expired entries is safe:
        an empty table answers "No active timers"; otherwise every running
        timer is listed in table order and every expired one is removed. */
    method ListTimers(now: int) returns (r: ListResult)
      requires Valid()
      modifies this`timers
      ensures Valid()
      ensures old(timers) == [] ==> r == NoActiveTimers && timers == []
      ensures old(timers) != [] ==> r == TimerList(Listing(old(timers), now))
      ensures timers == Live(old(timers), now)
    {
      if timers == [] {
        return NoActiveTimers;
      }
      var table, listed := ListPass(timers, now);
      LiveKeepsDistinct(old(timers), now);
      LiveMembers(old(timers), now);
      forall j | 0 <= j < |table| ensures 0 < table[j].id <= counter {
        assert table[j] in old(timers);
      }
      timers := table;
      r := TimerList(listed);
    }
  }

  /** The loop of list_timers over a snapshot of the table: each running
      timer is listed and each expired one is deleted from the table at the
      position it has reached. */
  method ListPass(snapshot: seq<Timer>, now: int) returns (table: seq<Timer>, listed: seq<Listed>)
    ensures table == Live(snapshot, now)
    ensures listed == Listing(snapshot, now)
  {
    table := snapshot;
    listed := [];
    var i := 0;
    while i < |snapshot|
      invariant 0 <= i <= |snapshot|
      invariant table == Live(snapshot[..i], now) + snapshot[i..]
      invariant listed == Listing(snapshot[..i], now)
    {
      var t := snapshot[i];
      var p := |listed|;
      PurgeStep(snapshot, i, now, table);
      ListingOfPrefix(snapshot, i, now);
      if t.endTime - now > 0 {
        listed := listed + [ListedOf(t, now)];
      } else {
        // del active_timers[timer_id]: the entry sits at position p
        table := table[..p] + table[p + 1..];
      }
      i := i + 1;
    }
    assert snapshot[..i] == snapshot;
  }

  /** Listing twice at the same instant drops nothing more: the purge is
      idempotent. */
  lemma {:induction false} LiveIdempotent(ts: seq<Timer>, now: int)
    ensures Live(Live(ts, now), now) == Live(ts, now)
  {
    if ts != [] { LiveIdempotent(ts[1..], now); }
  }

}
