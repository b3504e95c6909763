/**
 * The list logic of the relationship-manager dashboard: the six-column
 * search, the stable sort that lists the signed-in manager's applications
 * first, the freshness colour of an application and the local state update
 * after an assignment.
 */
module Dashboard {
  import opened Wrappers
  import Text

  /**
   * An application row as the backend returns it. Every searchable column may
   * be missing. `updateddate` is the parsed timestamp in milliseconds, or None
   * when the date string does not parse.
   */
  datatype Application = Application(
    id: int,
    appid: Option<string>,
    firstname: Option<string>,
    lastname: Option<string>,
    email: Option<string>,
    mobilenumber: Option<string>,
    journeytype: Option<string>,
    rmid: Option<string>,
    updateddate: Option<int>)

  /** The six search boxes above the table. */
  datatype Search = Search(
    appId: string,
    firstName: string,
    lastName: string,
    email: string,
    phone: string,
    journey: string)

  /** The search boxes as they start out: all empty. */
  const NoSearch: Search := Search("", "", "", "", "", "")

  // ----- the filter -----

  /** A present column that contains the query, both sides lower-cased. */
  predicate MatchesIgnoringCase(col: Option<string>, q: string) {
    col.Some? && Text.Includes(Text.Lower(col.value), Text.Lower(q))
  }

  /** A present column that contains the query as typed. */
  predicate MatchesExactly(col: Option<string>, q: string) {
    col.Some? && Text.Includes(col.value, q)
  }

  /** The filter callback: all six columns must match. */
  predicate Passes(app: Application, q: Search) {
    && MatchesIgnoringCase(app.appid, q.appId)
    && MatchesIgnoringCase(app.firstname, q.firstName)
    && MatchesIgnoringCase(app.lastname, q.lastName)
    && MatchesIgnoringCase(app.email, q.email)
    && MatchesExactly(app.mobilenumber, q.phone)
    && MatchesIgnoringCase(app.journeytype, q.journey)
  }

  /** All six searched columns are present. */
  predicate Complete(app: Application) {
    app.appid.Some? && app.firstname.Some? && app.lastname.Some?
    && app.email.Some? && app.mobilenumber.Some? && app.journeytype.Some?
  }

  /** The filter step of the list: the passing applications, in their order, each as often as in the input. */
  function Passing(apps: seq<Application>, q: Search): (r: seq<Application>)
    ensures forall x :: multiset(r)[x] == if Passes(x, q) then multiset(apps)[x] else 0
    ensures forall i :: 0 <= i < |r| ==> Passes(r[i], q)
  {
    if apps == [] then []
    else
      assert apps == [apps[0]] + apps[1..];
      (if Passes(apps[0], q) then [apps[0]] else []) + Passing(apps[1..], q)
  }

  /** An application is excluded from the list as soon as one searched column is missing. */
  lemma PassingNeedsAllColumns(app: Application, q: Search)
    ensures Passes(app, q) ==> Complete(app)
  {
  }

  /** With every search box empty the filter keeps exactly the complete applications. */
  lemma NoSearchKeepsComplete(app: Application)
    ensures Passes(app, NoSearch) <==> Complete(app)
  {
    forall s: string
      ensures Text.Includes(s, "")
    {
      Text.IncludesEmpty(s);
    }
  }

  /**
   * The five text columns ignore case on both sides; the phone column does
   * not. Lower-casing the five text queries therefore changes nothing.
   */
  lemma SearchIgnoresCase(app: Application, q: Search)
    ensures Passes(app, q) <==> Passes(app, q.(
      appId := Text.Lower(q.appId),
      firstName := Text.Lower(q.firstName),
      lastName := Text.Lower(q.lastName),
      email := Text.Lower(q.email),
      journey := Text.Lower(q.journey)))
  {
    Text.LowerIdempotent(q.appId);
    Text.LowerIdempotent(q.firstName);
    Text.LowerIdempotent(q.lastName);
    Text.LowerIdempotent(q.email);
    Text.LowerIdempotent(q.journey);
  }

  // ----- the sort -----

  /** The application is assigned to the signed-in manager. */
  predicate IsMine(app: Application, rmId: Option<string>) {
    app.rmid == rmId
  }

  /** The comparator `aMine - bMine`, with -1 for the manager's own applications and 1 otherwise. */
  function Compare(a: Application, b: Application, rmId: Option<string>): (r: int)
    ensures r < 0 <==> IsMine(a, rmId) && !IsMine(b, rmId)
    ensures r > 0 <==> !IsMine(a, rmId) && IsMine(b, rmId)
    ensures r == 0 <==> (IsMine(a, rmId) == IsMine(b, rmId))
  {
    (if IsMine(a, rmId) then -1 else 1) - (if IsMine(b, rmId) then -1 else 1)
  }

  /** Inserts `x` before the first element that does not compare less than it. */
  function Insert(x: Application, sorted: seq<Application>, rmId: Option<string>): (r: seq<Application>)
    ensures multiset(r) == multiset(sorted) + multiset{x}
  {
    if sorted == [] || Compare(x, sorted[0], rmId) <= 0 then [x] + sorted
    else
      assert sorted == [sorted[0]] + sorted[1..];
      [sorted[0]] + Insert(x, sorted[1..], rmId)
  }

  /**
   * A stable sort with the source's comparator, as `Array.prototype.sort` is
   * required to be by section 22.1.3.27 of ECMA-262, 10th edition (ES2019):
   * an insertion sort that sorts the tail first and puts the head before
   * every element that is not less than it, so equal elements keep their
   * input order.
   */
  function SortMineFirst(apps: seq<Application>, rmId: Option<string>): (r: seq<Application>)
    ensures multiset(r) == multiset(apps)
  {
    if apps == [] then []
    else
      assert apps == [apps[0]] + apps[1..];
      Insert(apps[0], SortMineFirst(apps[1..], rmId), rmId)
  }

  /** The applications that are the manager's own (`mine`) or not (`!mine`), in input order. */
  function Group(apps: seq<Application>, rmId: Option<string>, mine: bool): seq<Application> {
    if apps == [] then []
    else (if IsMine(apps[0], rmId) == mine then [apps[0]] else []) + Group(apps[1..], rmId, mine)
  }

  /** A group holds only applications of its kind. */
  lemma {:induction false} GroupIsHomogeneous(apps: seq<Application>, rmId: Option<string>, mine: bool)
    ensures forall i :: 0 <= i < |Group(apps, rmId, mine)| ==> IsMine(Group(apps, rmId, mine)[i], rmId) == mine
    decreases |apps|
  {
    if apps != [] {
      GroupIsHomogeneous(apps[1..], rmId, mine);
    }
  }

  function Mine(apps: seq<Application>, rmId: Option<string>): seq<Application> {
    Group(apps, rmId, true)
  }

  function Others(apps: seq<Application>, rmId: Option<string>): seq<Application> {
    Group(apps, rmId, false)
  }

  lemma {:induction false} GroupAppend(a: seq<Application>, b: seq<Application>, rmId: Option<string>, mine: bool)
    ensures Group(a + b, rmId, mine) == Group(a, rmId, mine) + Group(b, rmId, mine)
    decreases |a|
  {
    if a == [] {
      assert a + b == b;
    } else {
      var head := if IsMine(a[0], rmId) == mine then [a[0]] else [];
      assert (a + b)[0] == a[0];
      assert (a + b)[1..] == a[1..] + b;
      GroupAppend(a[1..], b, rmId, mine);
      calc {
        Group(a + b, rmId, mine);
        head + Group(a[1..] + b, rmId, mine);
        head + (Group(a[1..], rmId, mine) + Group(b, rmId, mine));
        (head + Group(a[1..], rmId, mine)) + Group(b, rmId, mine);
      }
    }
  }

  lemma MineAppend(a: seq<Application>, b: seq<Application>, rmId: Option<string>)
    ensures Mine(a + b, rmId) == Mine(a, rmId) + Mine(b, rmId)
    ensures Others(a + b, rmId) == Others(a, rmId) + Others(b, rmId)
  {
    GroupAppend(a, b, rmId, true);
    GroupAppend(a, b, rmId, false);
  }

  lemma {:induction false} MineOthersMultiset(apps: seq<Application>, rmId: Option<string>)
    ensures multiset(Mine(apps, rmId)) + multiset(Others(apps, rmId)) == multiset(apps)
    decreases |apps|
  {
    if apps != [] {
      MineOthersMultiset(apps[1..], rmId);
      assert apps == [apps[0]] + apps[1..];
    }
  }

  /** Filtering a group that is already homogeneous keeps or drops all of it. */
  lemma {:induction false} GroupFilters(apps: seq<Application>, rmId: Option<string>)
    ensures Mine(Mine(apps, rmId), rmId) == Mine(apps, rmId)
    ensures Others(Mine(apps, rmId), rmId) == []
    ensures Mine(Others(apps, rmId), rmId) == []
    ensures Others(Others(apps, rmId), rmId) == Others(apps, rmId)
    decreases |apps|
  {
    if apps != [] {
      GroupFilters(apps[1..], rmId);
      var m, o := Mine(apps[1..], rmId), Others(apps[1..], rmId);
      if IsMine(apps[0], rmId) {
        MineAppend([apps[0]], m, rmId);
        MineAppend([], o, rmId);
      } else {
        MineAppend([], m, rmId);
        MineAppend([apps[0]], o, rmId);
      }
    }
  }

  /** An element of everyone else's goes after all of the manager's own and before any other. */
  lemma {:induction false} InsertAfterMine(x: Application, mine: seq<Application>, others: seq<Application>, rmId: Option<string>)
    requires !IsMine(x, rmId)
    requires forall i :: 0 <= i < |mine| ==> IsMine(mine[i], rmId)
    requires others == [] || !IsMine(others[0], rmId)
    ensures Insert(x, mine + others, rmId) == mine + [x] + others
    decreases |mine|
  {
    if mine != [] {
      var t := mine + others;
      assert t[0] == mine[0] && t[1..] == mine[1..] + others;
      InsertAfterMine(x, mine[1..], others, rmId);
      assert mine == [mine[0]] + mine[1..];
    }
  }

  /** Inserting into a sorted sequence extends the group the element belongs to. */
  lemma InsertIntoPartition(x: Application, mine: seq<Application>, others: seq<Application>, rmId: Option<string>)
    requires forall i :: 0 <= i < |mine| ==> IsMine(mine[i], rmId)
    requires forall i :: 0 <= i < |others| ==> !IsMine(others[i], rmId)
    ensures Insert(x, mine + others, rmId) ==
      if IsMine(x, rmId) then ([x] + mine) + others else mine + ([x] + others)
  {
    if IsMine(x, rmId) {
      assert Insert(x, mine + others, rmId) == [x] + (mine + others);
      assert [x] + (mine + others) == ([x] + mine) + others;
    } else {
      InsertAfterMine(x, mine, others, rmId);
      assert mine + [x] + others == mine + ([x] + others);
    }
  }

  /**
   * The stable sort puts the manager's applications first and everyone
   * else's after them, each group in input order.
   */
  lemma {:induction false} SortIsPartition(apps: seq<Application>, rmId: Option<string>)
    ensures SortMineFirst(apps, rmId) == Mine(apps, rmId) + Others(apps, rmId)
    decreases |apps|
  {
    if apps != [] {
      var x, m, o := apps[0], Mine(apps[1..], rmId), Others(apps[1..], rmId);
      SortIsPartition(apps[1..], rmId);
      GroupIsHomogeneous(apps[1..], rmId, true);
      GroupIsHomogeneous(apps[1..], rmId, false);
      InsertIntoPartition(x, m, o, rmId);
      assert SortMineFirst(apps, rmId) == Insert(x, m + o, rmId);
      if IsMine(x, rmId) {
        assert Mine(apps, rmId) == [x] + m && Others(apps, rmId) == [] + o == o;
      } else {
        assert Mine(apps, rmId) == [] + m == m && Others(apps, rmId) == [x] + o;
      }
    }
  }

  lemma PassingCons(x: Application, s: seq<Application>, q: Search)
    ensures Passing([x] + s, q) == (if Passes(x, q) then [x] else []) + Passing(s, q)
  {
    assert ([x] + s)[1..] == s;
  }

  lemma GroupCons(x: Application, s: seq<Application>, rmId: Option<string>, mine: bool)
    ensures Group([x] + s, rmId, mine) == (if IsMine(x, rmId) == mine then [x] else []) + Group(s, rmId, mine)
  {
    assert ([x] + s)[1..] == s;
  }

  /**
   * The search keeps the order within each group: the manager's passing
   * applications are the passing ones among theirs, in input order, and
   * likewise for everyone else's.
   */
  lemma {:induction false} PassingKeepsGroups(apps: seq<Application>, q: Search, rmId: Option<string>, mine: bool)
    ensures Group(Passing(apps, q), rmId, mine) == Passing(Group(apps, rmId, mine), q)
    decreases |apps|
  {
    if apps != [] {
      var x, rest := apps[0], apps[1..];
      assert apps == [x] + rest;
      var p, g := Passing(rest, q), Group(rest, rmId, mine);
      PassingKeepsGroups(rest, q, rmId, mine);
      PassingCons(x, rest, q);
      GroupCons(x, rest, rmId, mine);
      var passes, kind := Passes(x, q), IsMine(x, rmId) == mine;
      if passes {
        GroupCons(x, p, rmId, mine);
        assert Group(Passing(apps, q), rmId, mine) == (if kind then [x] else []) + Group(p, rmId, mine);
      } else {
        assert Passing(apps, q) == [] + p == p;
      }
      if kind {
        PassingCons(x, g, q);
        assert Passing(Group(apps, rmId, mine), q) == (if passes then [x] else []) + Passing(g, q);
      } else {
        assert Group(apps, rmId, mine) == [] + g == g;
      }
    }
  }

  /** The `filtered` memo: search, then sort. */
  function Filtered(apps: seq<Application>, q: Search, rmId: Option<string>): seq<Application> {
    SortMineFirst(Passing(apps, q), rmId)
  }

  /**
   * What the table shows: only passing applications, each exactly as often
   * as in the input (so it is a permutation of the passing ones), the
   * manager's own ones before all others, and each group in input order.
   */
  lemma FilteredSpec(apps: seq<Application>, q: Search, rmId: Option<string>)
    ensures forall i :: 0 <= i < |Filtered(apps, q, rmId)| ==> Passes(Filtered(apps, q, rmId)[i], q)
    ensures forall x :: multiset(Filtered(apps, q, rmId))[x] == if Passes(x, q) then multiset(apps)[x] else 0
    ensures forall i, j :: 0 <= i < j < |Filtered(apps, q, rmId)| && IsMine(Filtered(apps, q, rmId)[j], rmId)
              ==> IsMine(Filtered(apps, q, rmId)[i], rmId)
    ensures Mine(Filtered(apps, q, rmId), rmId) == Mine(Passing(apps, q), rmId)
    ensures Others(Filtered(apps, q, rmId), rmId) == Others(Passing(apps, q), rmId)
  {
    var p := Passing(apps, q);
    var m, o := Mine(p, rmId), Others(p, rmId);
    SortIsPartition(p, rmId);
    MineOthersMultiset(p, rmId);
    MineAppend(m, o, rmId);
    GroupFilters(p, rmId);
    var r := m + o;
    forall i | 0 <= i < |r|
      ensures Passes(r[i], q)
    {
      assert r[i] in multiset(r);
      assert r[i] in multiset(p);
    }
    GroupIsHomogeneous(p, rmId, true);
    GroupIsHomogeneous(p, rmId, false);
    forall i, j | 0 <= i < j < |r| && IsMine(r[j], rmId)
      ensures IsMine(r[i], rmId)
    {
      assert j < |m|;
    }
  }

  /**
   * Each group of the list is, in input order, the passing applications of
   * that group of the input.
   */
  lemma FilteredKeepsInputOrder(apps: seq<Application>, q: Search, rmId: Option<string>)
    ensures Mine(Filtered(apps, q, rmId), rmId) == Passing(Mine(apps, rmId), q)
    ensures Others(Filtered(apps, q, rmId), rmId) == Passing(Others(apps, rmId), q)
  {
    FilteredSpec(apps, q, rmId);
    PassingKeepsGroups(apps, q, rmId, true);
    PassingKeepsGroups(apps, q, rmId, false);
  }

  /** With empty search boxes the table lists exactly the complete applications. */
  lemma NoSearchShowsComplete(apps: seq<Application>, rmId: Option<string>)
    ensures forall x :: multiset(Filtered(apps, NoSearch, rmId))[x] == if Complete(x) then multiset(apps)[x] else 0
  {
    FilteredSpec(apps, NoSearch, rmId);
    forall x: Application
      ensures Passes(x, NoSearch) <==> Complete(x)
    {
      NoSearchKeepsComplete(x);
    }
  }

  // ----- the freshness colour -----

  datatype StatusColor = Green | Amber | Red

  /** The milliseconds in a day. */
  const MillisPerDay: int := 1000 * 60 * 60 * 24

  /** The elapsed time in whole days, rounded down (towards minus infinity for a future date). */
  function DaysBetween(now: int, updated: int): (d: int)
    ensures d * MillisPerDay <= now - updated < (d + 1) * MillisPerDay
  {
    (now - updated) / MillisPerDay
  }

  /**
   * `getStatusColorClass`. An unparseable date makes the day count NaN, and
   * both comparisons with NaN are false.
   */
  function StatusColorClass(now: int, updated: Option<int>): (c: StatusColor)
    ensures updated.None? ==> c == Red
    ensures updated.Some? ==> (c == Green <==> DaysBetween(now, updated.value) <= 1)
    ensures updated.Some? ==> (c == Amber <==> 1 < DaysBetween(now, updated.value) <= 3)
    ensures updated.Some? ==> (c == Red <==> 3 < DaysBetween(now, updated.value))
  {
    if updated.None? then Red
    else
      var d := DaysBetween(now, updated.value);
      if d <= 1 then Green else if d <= 3 then Amber else Red
  }

  /**
   * In elapsed time: green below two full days, amber from two up to four
   * full days, red from four days on.
   */
  lemma StatusByElapsedTime(now: int, updated: int)
    ensures StatusColorClass(now, Some(updated)) == Green <==> now - updated < 2 * MillisPerDay
    ensures StatusColorClass(now, Some(updated)) == Amber <==> 2 * MillisPerDay <= now - updated < 4 * MillisPerDay
    ensures StatusColorClass(now, Some(updated)) == Red <==> 4 * MillisPerDay <= now - updated
  {
    var d := DaysBetween(now, updated);
    if d <= 1 {
      assert (d + 1) * MillisPerDay <= 2 * MillisPerDay;
    } else if d <= 3 {
      assert 2 * MillisPerDay <= d * MillisPerDay;
      assert (d + 1) * MillisPerDay <= 4 * MillisPerDay;
    } else {
      assert 4 * MillisPerDay <= d * MillisPerDay;
    }
  }

  /** A timestamp in the future counts as fresh. */
  lemma FutureIsGreen(now: int, updated: int)
    requires now < updated
    ensures StatusColorClass(now, Some(updated)) == Green
  {
    StatusByElapsedTime(now, updated);
  }

  function Severity(c: StatusColor): nat {
    match c
    case Green => 0
    case Amber => 1
    case Red => 2
  }

  /** As time passes the colour of an application only gets worse. */
  lemma StatusNeverImproves(now1: int, now2: int, updated: Option<int>)
    requires now1 <= now2
    ensures Severity(StatusColorClass(now1, updated)) <= Severity(StatusColorClass(now2, updated))
  {
    if updated.Some? {
      StatusByElapsedTime(now1, updated.value);
      StatusByElapsedTime(now2, updated.value);
    }
  }

  // ----- the local update after an assignment -----

  /**
   * The local update after an assignment: every application with the given
   * id gets the manager's id as `rmid`, every other one is kept as it is.
   */
  function AssignLocally(apps: seq<Application>, id: int, rmId: Option<string>): (r: seq<Application>)
    ensures |r| == |apps|
    ensures forall i :: 0 <= i < |apps| && apps[i].id == id ==> r[i] == apps[i].(rmid := rmId)
    ensures forall i :: 0 <= i < |apps| && apps[i].id != id ==> r[i] == apps[i]
  {
    if apps == [] then []
    else [if apps[0].id == id then apps[0].(rmid := rmId) else apps[0]] + AssignLocally(apps[1..], id, rmId)
  }

  lemma PassesIgnoresRmid(app: Application, rmId: Option<string>, q: Search)
    ensures Passes(app.(rmid := rmId), q) == Passes(app, q)
  {
  }

  /**
   * Assigning does not change which applications the search shows: it only
   * rewrites `rmid`, a column the search does not read.
   */
  lemma {:induction false} AssignKeepsSearch(apps: seq<Application>, id: int, rmId: Option<string>, q: Search)
    ensures Passing(AssignLocally(apps, id, rmId), q) == AssignLocally(Passing(apps, q), id, rmId)
    decreases |apps|
  {
    if apps != [] {
      var a := if apps[0].id == id then apps[0].(rmid := rmId) else apps[0];
      PassesIgnoresRmid(apps[0], rmId, q);
      var r := AssignLocally(apps, id, rmId);
      assert r[0] == a;
      assert r[1..] == AssignLocally(apps[1..], id, rmId);
      AssignKeepsSearch(apps[1..], id, rmId, q);
      var pr := Passing(apps[1..], q);
      calc {
        Passing(r, q);
        (if Passes(a, q) then [a] else []) + Passing(r[1..], q);
        (if Passes(a, q) then [a] else []) + AssignLocally(pr, id, rmId);
      }
      if Passes(apps[0], q) {
        assert Passing(apps, q) == [apps[0]] + pr;
        assert AssignLocally([apps[0]] + pr, id, rmId)[1..] == AssignLocally(pr, id, rmId);
      } else {
        assert Passing(apps, q) == pr;
      }
    }
  }
}
