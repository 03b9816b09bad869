/** The leaderboard page: for every user, the total manufacturing emission of their devices,
    then the users ranked from the lowest total up. The users come from `GET /fetchUserIds`;
    the devices of each from `GET /fetchManufacturingViz`, one request per user in turn. */
module Leaderboard {
  import opened Wrappers
  import opened Js
  import opened Http
  import opened Sql
  import opened Sequences
  import opened Records
  import opened Server

  /** A row of `SELECT id, username FROM Users`. */
  datatype User = User(id: nat, username: string)

  /** One line of the board. */
  datatype Entry = Entry(userid: nat, username: string, totalEmissions: real)

  function TotalOf(e: Entry): real {
    e.totalEmissions
  }

  /** The devices the route returns for a user: the request carries the id as a query string. */
  function UserPoints(devices: seq<DeviceRow>, u: User): seq<MfPoint> {
    MfPoints(OwnedDevices(devices, Str(DecimalString(u.id))))
  }

  /** The unsorted board: one entry per user, in the order of the users. */
  function Entries(users: seq<User>, devices: seq<DeviceRow>): (r: seq<Entry>)
    ensures |r| == |users|
    ensures forall i :: 0 <= i < |users| ==>
      r[i] == Entry(users[i].id, users[i].username, Total(UserPoints(devices, users[i])))
    decreases |users|
  {
    if users == [] then []
    else
      var u := users[|users| - 1];
      Entries(users[..|users| - 1], devices) + [Entry(u.id, u.username, Total(UserPoints(devices, u)))]
  }

  /** One more user adds their entry at the end. */
  lemma EntriesStep(us: seq<User>, k: nat, devices: seq<DeviceRow>)
    requires k < |us|
    ensures Entries(us[..k + 1], devices)
      == Entries(us[..k], devices) + [Entry(us[k].id, us[k].username, Total(UserPoints(devices, us[k])))]
  {
    assert us[..k + 1][..k] == us[..k];
  }

  /** A user's total is the sum over exactly the devices whose owner column is that user's id. */
  lemma UserPointsOwned(devices: seq<DeviceRow>, u: User, d: DeviceRow)
    ensures d in OwnedDevices(devices, Str(DecimalString(u.id))) <==> d in devices && d.userid == Some(u.id as real)
  {
    DecimalParamKey(u.id);
    OwnedDevicesExact(devices, Str(DecimalString(u.id)), d);
  }

  /** The board as shown: the entries sorted ascending by total, with a stable sort. */
  function Ranking(users: seq<User>, devices: seq<DeviceRow>): seq<Entry> {
    SortBy(Entries(users, devices), TotalOf)
  }

  /** The ranking is sorted ascending, holds exactly one entry per user (a permutation of the
      entries), and users with equal totals keep the order in which they were listed. */
  lemma RankingProperties(users: seq<User>, devices: seq<DeviceRow>, k: real)
    ensures Sorted(Ranking(users, devices), TotalOf)
    ensures |Ranking(users, devices)| == |users|
    ensures multiset(Ranking(users, devices)) == multiset(Entries(users, devices))
    ensures WithKey(Ranking(users, devices), TotalOf, k) == WithKey(Entries(users, devices), TotalOf, k)
  {
    SortBySorted(Entries(users, devices), TotalOf);
    SortByPermutes(Entries(users, devices), TotalOf);
    SortByStable(Entries(users, devices), TotalOf, k);
  }

  /** Every user appears on the board with their id and name. */
  lemma RankingListsEveryUser(users: seq<User>, devices: seq<DeviceRow>, i: nat)
    requires i < |users|
    ensures Entry(users[i].id, users[i].username, Total(UserPoints(devices, users[i]))) in Ranking(users, devices)
  {
    var e := Entries(users, devices);
    SortByPermutes(e, TotalOf);
    assert e[i] in multiset(e);
  }

  /** One iteration of the loop: the user's devices fetched and totalled. The id is always a
      non-empty string, so the route answers. */
  method UserEntry(u: User, db: Database) returns (e: Entry)
    ensures e == Entry(u.id, u.username, Total(UserPoints(db.devices, u)))
  {
    var st, points := db.FetchManufacturingViz(Str(DecimalString(u.id)));
    DecimalParamKey(u.id);
    assert st == Ok;
    e := Entry(u.id, u.username, Total(points));
  }

  /** The loop over the users: one emissions request per user in turn. The request that fails
      in transport, if any, throws, so no user after it is asked and no board is built. */
  method CollectEntries(us: seq<User>, firstFailure: Option<nat>, db: Database) returns (all: Option<seq<Entry>>)
    ensures firstFailure.Some? && firstFailure.value < |us| ==> all.None?
    ensures !(firstFailure.Some? && firstFailure.value < |us|) ==> all == Some(Entries(us, db.devices))
  {
    var n := if firstFailure.Some? && firstFailure.value < |us| then firstFailure.value else |us|;
    var done: seq<Entry> := [];
    for k := 0 to n
      invariant done == Entries(us[..k], db.devices)
    {
      var e := UserEntry(us[k], db);
      EntriesStep(us, k, db.devices);
      done := done + [e];
    }
    if n < |us| {
      return None;
    }
    assert us[..|us|] == us;
    return Some(done);
  }

  /** `entries.sort((a, b) => a.totalEmissions - b.totalEmissions)` on a copy of the entries. */
  method SortEntries(all: seq<Entry>) returns (r: seq<Entry>)
    ensures r == SortBy(all, TotalOf)
  {
    var a := new Entry[|all|](i requires 0 <= i < |all| => all[i]);
    assert a[..] == all;
    InsertionSort(a, TotalOf);
    r := a[..];
  }

  /** What the page shows: still loading, the error text, or the board. */
  datatype View = Loading | Failed | Board(entries: seq<Entry>)

  const LoadError := "Failed to load leaderboard data"

  class LeaderboardPage {
    var leaderboardData: seq<Entry>
    var loading: bool
    var error: Option<string>

    function View(): View
      reads this
    {
      if loading then Loading else if error.Some? then Failed else Board(leaderboardData)
    }

    constructor()
      ensures leaderboardData == [] && loading && error.None?
    {
      leaderboardData := [];
      loading := true;
      error := None;
    }

    /** The mount effect. `users` is the answer of `fetchUserIds`, `None` when that request
        failed; `firstFailure` is the index of the first user whose emissions request fails in
        transport, if any. Any failure shows the error instead of a partial board. */
    method FetchUserIds(users: Option<seq<User>>, firstFailure: Option<nat>, db: Database)
      modifies this
      ensures !loading
      ensures users.None? || (firstFailure.Some? && firstFailure.value < |users.value|) ==>
        leaderboardData == old(leaderboardData) && error == Some(LoadError)
      ensures users.Some? && !(firstFailure.Some? && firstFailure.value < |users.value|) ==>
        leaderboardData == Ranking(users.value, db.devices) && error == old(error)
    {
      if users.None? {
        error := Some(LoadError);
        loading := false;
        return;
      }
      var all := CollectEntries(users.value, firstFailure, db);
      if all.None? {
        error := Some(LoadError);
        loading := false;
        return;
      }
      leaderboardData := SortEntries(all.value);
      loading := false;
    }
  }
}
