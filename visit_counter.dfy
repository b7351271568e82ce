/** The page visit counter: total and per-session counts, first and last
    visit and the most recent sessions, kept in browser storage. */
module VisitCounter {
  import opened Wrappers
  import opened Text

  datatype Session = Session(id: string, timestamp: string, userAgent: string)

  /** The stored record. A timestamp is None for `null`. */
  datatype VisitData = VisitData(
    totalVisits: int, uniqueVisits: int,
    firstVisit: Option<string>, lastVisit: Option<string>,
    sessions: seq<Session>)

  /** The record used when nothing is stored. */
  const Defaults := VisitData(0, 0, None, None, [])

  /** At most this many sessions are kept. */
  const MaxSessions := 100

  /** JavaScript truthiness of a stored string. */
  predicate Truthy(s: Option<string>) {
    s.Some? && s.value != ""
  }

  /** The last `MaxSessions` sessions, as `slice(-100)` when longer. */
  function KeepRecent(ss: seq<Session>): (r: seq<Session>)
    ensures |ss| <= MaxSessions ==> r == ss
    ensures |ss| > MaxSessions ==> |r| == MaxSessions
    ensures r == ss[|ss| - |r|..]
  {
    if |ss| > MaxSessions then ss[|ss| - MaxSessions..] else ss
  }

  /** The record after one `recordVisit` at time `now`; `isNew` says whether
      the tab had no session id, `id` is the generated id and `agent` the
      browser's user agent. */
  function Recorded(d: VisitData, isNew: bool, now: string, id: string, agent: string): VisitData {
    var d1 := d.(totalVisits := d.totalVisits + 1);
    var d2 := if !Truthy(d1.firstVisit) then d1.(firstVisit := Some(now)) else d1;
    var d3 := d2.(lastVisit := Some(now));
    if isNew then
      var agent100 := if |agent| > 100 then agent[..100] else agent;
      d3.(uniqueVisits := d3.uniqueVisits + 1,
          sessions := KeepRecent(d3.sessions + [Session(id, now, agent100)]))
    else d3
  }

  /** The counts the record holds after a visit: one more visit, one more
      unique visit exactly for a new session. */
  lemma RecordedCounts(d: VisitData, isNew: bool, now: string, id: string, agent: string)
    ensures var r := Recorded(d, isNew, now, id, agent);
      && r.totalVisits == d.totalVisits + 1
      && r.uniqueVisits == d.uniqueVisits + (if isNew then 1 else 0)
      && r.lastVisit == Some(now)
      && r.firstVisit == (if Truthy(d.firstVisit) then d.firstVisit else Some(now))
  {
  }

  /** The session list: unchanged for a continuing session; otherwise the new
      session appended, the oldest ones dropped beyond 100, order kept. */
  lemma RecordedSessions(d: VisitData, isNew: bool, now: string, id: string, agent: string)
    ensures var r := Recorded(d, isNew, now, id, agent);
      && (!isNew ==> r.sessions == d.sessions)
      && (isNew ==>
            && |r.sessions| <= MaxSessions
            && r.sessions != []
            && r.sessions[|r.sessions| - 1].id == id
            && r.sessions[..|r.sessions| - 1] == d.sessions[|d.sessions| + 1 - |r.sessions|..]
            && |r.sessions| == if |d.sessions| < MaxSessions then |d.sessions| + 1 else MaxSessions)
  {
    if isNew {
      var r := Recorded(d, isNew, now, id, agent);
      var agent100 := if |agent| > 100 then agent[..100] else agent;
      var all := d.sessions + [Session(id, now, agent100)];
      assert r.sessions == all[|all| - |r.sessions|..];
      assert r.sessions[..|r.sessions| - 1] == all[|all| - |r.sessions|..|all| - 1];
      assert all[..|all| - 1] == d.sessions;
    }
  }

  /** Sessions are no more than unique visits, which are no more than visits. */
  predicate Consistent(d: VisitData) {
    0 <= |d.sessions| <= d.uniqueVisits <= d.totalVisits && |d.sessions| <= MaxSessions
  }

  /** One visit keeps the counts consistent. */
  lemma ConsistentKept(d: VisitData, isNew: bool, now: string, id: string, agent: string)
    requires Consistent(d)
    ensures Consistent(Recorded(d, isNew, now, id, agent))
  {
    RecordedSessions(d, isNew, now, id, agent);
  }

  lemma DefaultsConsistent()
    ensures Consistent(Defaults)
  {
  }

  /** One call of `recordVisit`: whether the tab had no session id, the
      clock, the generated id and the user agent. */
  datatype Visit = Visit(isNew: bool, now: string, id: string, agent: string)

  /** The record after a list of visits, in order. */
  function Visits(d: VisitData, vs: seq<Visit>): VisitData
    decreases |vs|
  {
    if vs == [] then d
    else Visits(Recorded(d, vs[0].isNew, vs[0].now, vs[0].id, vs[0].agent), vs[1..])
  }

  /** Starting from the defaults (or any consistent record), every list of
      visits keeps the counts consistent and adds one visit per call. */
  lemma {:induction false} VisitsConsistent(d: VisitData, vs: seq<Visit>)
    requires Consistent(d)
    ensures Consistent(Visits(d, vs))
    ensures Visits(d, vs).totalVisits == d.totalVisits + |vs|
    decreases |vs|
  {
    if vs != [] {
      ConsistentKept(d, vs[0].isNew, vs[0].now, vs[0].id, vs[0].agent);
      VisitsConsistent(Recorded(d, vs[0].isNew, vs[0].now, vs[0].id, vs[0].agent), vs[1..]);
    }
  }

  /** Tenths of `num / d`, rounded to nearest with halves up. */
  function Tenths(num: nat, d: nat): (t: nat)
    requires d > 0
    ensures t * d <= 10 * num + d / 2 < t * d + d
  {
    (10 * num + d / 2) / d
  }

  /** `toFixed(1)` of a non-negative value given in tenths. */
  function Fixed1(t: nat): (r: string)
    ensures |r| >= 3 && r[|r| - 2] == '.'
  {
    NatToString(t / 10) + "." + [DigitChar(t % 10)]
  }

  /** `formatNumber` for a count. */
  function FormatNumber(num: nat): (r: string)
    ensures num < 1000 <==> forall i :: 0 <= i < |r| ==> IsDigit(r[i])
  {
    if num >= 1000000 then
      var f := Fixed1(Tenths(num, 1000000)) + "M";
      assert !IsDigit(f[|f| - 1]);
      f
    else if num >= 1000 then
      var f := Fixed1(Tenths(num, 1000)) + "K";
      assert !IsDigit(f[|f| - 1]);
      f
    else NatToString(num)
  }

  /** `s` is digits, a `.`, one digit and a suffix letter, and the number
      before the letter is `t` tenths. */
  predicate ShowsTenths(s: string, t: nat) {
    |s| >= 4 && s[|s| - 3] == '.' && IsDigit(s[|s| - 2])
    && (forall i :: 0 <= i < |s| - 3 ==> IsDigit(s[i]))
    && DigitsValue(s[..|s| - 3]) * 10 + (s[|s| - 2] as int - '0' as int) == t
  }

  /** Plain digits below 1000, a `K` suffix from 1000 and an `M` suffix from
      1000000, with one decimal; the number shown is the nearest tenth of
      the count in thousands or in millions, halves up. */
  lemma FormatNumberShape(num: nat)
    ensures num < 1000 ==> FormatNumber(num) == NatToString(num) && DigitsValue(FormatNumber(num)) == num
    ensures 1000 <= num < 1000000 ==> EndsWith(FormatNumber(num), "K")
    ensures num >= 1000000 ==> EndsWith(FormatNumber(num), "M")
    ensures num >= 1000 ==> var f := FormatNumber(num); f[|f| - 3] == '.'
    ensures 1000 <= num < 1000000 ==> ShowsTenths(FormatNumber(num), Tenths(num, 1000))
    ensures num >= 1000000 ==> ShowsTenths(FormatNumber(num), Tenths(num, 1000000))
    ensures 1000 <= num < 1000000 ==> forall t: nat :: ShowsTenths(FormatNumber(num), t) ==>
      t * 1000 <= 10 * num + 500 < t * 1000 + 1000
    ensures num >= 1000000 ==> forall t: nat :: ShowsTenths(FormatNumber(num), t) ==>
      t * 1000000 <= 10 * num + 500000 < t * 1000000 + 1000000
  {
    DigitsValueOfNatToString(num);
    if num >= 1000000 {
      Fixed1Shows(Tenths(num, 1000000), "M");
    } else if num >= 1000 {
      Fixed1Shows(Tenths(num, 1000), "K");
    }
  }

  /** `toFixed(1)` text followed by a suffix letter shows its tenths. */
  lemma Fixed1Shows(t: nat, suffix: string)
    requires |suffix| == 1
    ensures ShowsTenths(Fixed1(t) + suffix, t)
  {
    var f := Fixed1(t) + suffix;
    var head := NatToString(t / 10);
    assert f == head + "." + [DigitChar(t % 10)] + suffix;
    assert f[..|f| - 3] == head;
    DigitsValueOfNatToString(t / 10);
  }

  /** The page's counter. `stored` is what `localStorage` holds under the
      counter's key (already parsed), `sessionId` what `sessionStorage` holds. */
  class VisitCounterState {
    var visitData: VisitData
    var stored: Option<VisitData>
    var sessionId: Option<string>

    /** `new VisitCounter()`: load, then record this visit. The display is
        not modelled. */
    constructor(stored: Option<VisitData>, sessionId: Option<string>, now: string, id: string, agent: string)
      requires id != ""
      ensures this.visitData == Recorded(if stored.Some? then stored.value else Defaults,
                                         !Truthy(sessionId), now, id, agent)
      ensures this.stored == Some(this.visitData)
      ensures this.sessionId == if Truthy(sessionId) then sessionId else Some(id)
    {
      this.stored := stored;
      this.sessionId := sessionId;
      this.visitData := Defaults;
      new;
      LoadVisitData();
      RecordVisit(now, id, agent);
    }

    /** `loadVisitData`. */
    method LoadVisitData()
      modifies this
      ensures visitData == if stored.Some? then stored.value else Defaults
      ensures stored == old(stored) && sessionId == old(sessionId)
    {
      visitData := if stored.Some? then stored.value else Defaults;
    }

    /** `isNewSession`. */
    predicate IsNewSession()
      reads this
    {
      !Truthy(sessionId)
    }

    /** `recordVisit`: `now` is the clock's ISO text, `id` the generated session
        id (never empty), `agent` the user agent. The record is saved. */
    method RecordVisit(now: string, id: string, agent: string)
      requires id != ""
      modifies this
      ensures visitData == Recorded(old(visitData), old(IsNewSession()), now, id, agent)
      ensures stored == Some(visitData)
      ensures sessionId == if old(IsNewSession()) then Some(id) else old(sessionId)
      ensures !IsNewSession()
    {
      var isNew := IsNewSession();
      var d := visitData.(totalVisits := visitData.totalVisits + 1);
      if !Truthy(d.firstVisit) {
        d := d.(firstVisit := Some(now));
      }
      d := d.(lastVisit := Some(now));
      if isNew {
        sessionId := Some(id);
        var agent100 := if |agent| > 100 then agent[..100] else agent;
        var sessions := d.sessions + [Session(id, now, agent100)];
        if |sessions| > 100 {
          sessions := sessions[|sessions| - 100..];
        }
        d := d.(uniqueVisits := d.uniqueVisits + 1, sessions := sessions);
      }
      visitData := d;
      stored := Some(d);
    }

    /** `reset`, without the page reload: both storages are emptied and the
        defaults loaded. */
    method Reset()
      modifies this
      ensures stored == None && sessionId == None && visitData == Defaults
    {
      stored := None;
      sessionId := None;
      LoadVisitData();
    }
  }

  /** After a visit the tab holds a session id, so the next visit in the same
      tab is recorded with `isNew` false and adds no unique visit. */
  lemma SameSessionTwice(d: VisitData, isNew: bool, now: string, id: string, agent: string, now2: string)
    ensures var r := Recorded(Recorded(d, isNew, now, id, agent), false, now2, id, agent);
      r.uniqueVisits == d.uniqueVisits + (if isNew then 1 else 0) && r.totalVisits == d.totalVisits + 2
  {
    RecordedCounts(d, isNew, now, id, agent);
    RecordedCounts(Recorded(d, isNew, now, id, agent), false, now2, id, agent);
  }
}
