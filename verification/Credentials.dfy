/** Achievement credentials: listing them against looking one up. */
module Credentials {
  import opened Wrappers
  import opened Roles

  datatype Credential = Credential(id: Id, child: Id, recipient: Option<Id>, issuer: Id, date: int, createdAt: int)

  datatype Child = Child(id: Id, owner: Id)

  datatype Filter = Filter(child: Option<Id>, issuedByMe: bool)

  /** The two tables, each in the order the database happens to return its rows. */
  datatype Tables = Tables(children: seq<Child>, credentials: seq<Credential>)

  const RECENT: nat := 200

  // ---------------------------------------------------------------- primary keys and queries

  predicate Distinct(rows: seq<Credential>) {
    forall i, j | 0 <= i < j < |rows| :: rows[i].id != rows[j].id
  }

  predicate DistinctChildren(rows: seq<Child>) {
    forall i, j | 0 <= i < j < |rows| :: rows[i].id != rows[j].id
  }

  predicate Keyed(tables: Tables) {
    DistinctChildren(tables.children) && Distinct(tables.credentials)
  }

  function FindCredential(rows: seq<Credential>, id: Id): (r: Option<Credential>)
    ensures r.Some? ==> r.value in rows && r.value.id == id
    ensures r.None? ==> forall c | c in rows :: c.id != id
  {
    if rows == [] then None else if rows[0].id == id then Some(rows[0]) else FindCredential(rows[1..], id)
  }

  function FindChild(rows: seq<Child>, id: Id): (r: Option<Child>)
    ensures r.Some? ==> r.value in rows && r.value.id == id
    ensures r.None? ==> forall c | c in rows :: c.id != id
  {
    if rows == [] then None else if rows[0].id == id then Some(rows[0]) else FindChild(rows[1..], id)
  }

  function ChildrenOf(rows: seq<Child>, owner: Id): (r: seq<Child>)
    ensures forall c :: c in r <==> c in rows && c.owner == owner
    ensures DistinctChildren(rows) ==> DistinctChildren(r)
  {
    if rows == [] then []
    else
      var rest := ChildrenOf(rows[1..], owner);
      assert forall k | 0 <= k < |rest| :: rest[k] in rows[1..];
      if rows[0].owner == owner then [rows[0]] + rest else rest
  }

  /** The rows a WHERE clause keeps. */
  function Where(rows: seq<Credential>, wanted: Credential -> bool): (r: seq<Credential>)
    ensures forall c :: c in r <==> c in rows && wanted(c)
    ensures Distinct(rows) ==> Distinct(r)
  {
    if rows == [] then []
    else
      var rest := Where(rows[1..], wanted);
      assert forall k | 0 <= k < |rest| :: rest[k] in rows[1..];
      if wanted(rows[0]) then [rows[0]] + rest else rest
  }

  // ---------------------------------------------------------------- sorting and deduplicating

  /** A sort key compared from the larger to the smaller. */
  predicate AtLeast(a: (int, int), b: (int, int)) {
    a.0 > b.0 || (a.0 == b.0 && a.1 >= b.1)
  }

  /** `achievement_date`, then `created_at`. */
  function ByDate(c: Credential): (int, int) {
    (c.date, c.createdAt)
  }

  function ByAge(c: Credential): (int, int) {
    (c.createdAt, 0)
  }

  predicate Descending(rows: seq<Credential>, key: Credential -> (int, int)) {
    forall i, j | 0 <= i < j < |rows| :: AtLeast(key(rows[i]), key(rows[j]))
  }

  function Insert(c: Credential, rows: seq<Credential>, key: Credential -> (int, int)): (r: seq<Credential>)
    ensures multiset(r) == multiset(rows) + multiset{c}
  {
    if rows == [] || AtLeast(key(c), key(rows[0])) then [c] + rows
    else
      assert rows == [rows[0]] + rows[1..];
      [rows[0]] + Insert(c, rows[1..], key)
  }

  lemma {:induction false} InsertKeepsOrder(c: Credential, rows: seq<Credential>, key: Credential -> (int, int))
    requires Descending(rows, key)
    ensures Descending(Insert(c, rows, key), key)
  {
    if rows != [] && !AtLeast(key(c), key(rows[0])) {
      var rest := Insert(c, rows[1..], key);
      InsertKeepsOrder(c, rows[1..], key);
      forall k | 0 <= k < |rest|
        ensures AtLeast(key(rows[0]), key(rest[k]))
      {
        assert rest[k] in multiset(rest);
        assert rest[k] == c || rest[k] in rows[1..];
      }
    }
  }

  /** Rust's `sort_by`, and ORDER BY: largest key first, equal keys in their former order. */
  function Sort(rows: seq<Credential>, key: Credential -> (int, int)): (r: seq<Credential>)
    ensures multiset(r) == multiset(rows)
    ensures Descending(r, key)
  {
    if rows == [] then []
    else
      assert rows == [rows[0]] + rows[1..];
      var rest := Sort(rows[1..], key);
      InsertKeepsOrder(rows[0], rest, key);
      Insert(rows[0], rest, key)
  }

  /** Rust's `dedup_by_key`: of neighbours with one id, the first stays. */
  function Dedup(rows: seq<Credential>): seq<Credential>
    decreases |rows|
  {
    if |rows| < 2 then rows
    else if rows[0].id == rows[1].id then Dedup([rows[0]] + rows[2..])
    else [rows[0]] + Dedup(rows[1..])
  }

  lemma {:induction false} InsertIsStable(c: Credential, rows: seq<Credential>, key: Credential -> (int, int),
    k: (int, int))
    requires Descending(rows, key)
    ensures Where(Insert(c, rows, key), (x: Credential) => key(x) == k)
      == (if key(c) == k then [c] else []) + Where(rows, (x: Credential) => key(x) == k)
  {
    var same := (x: Credential) => key(x) == k;
    if rows == [] || AtLeast(key(c), key(rows[0])) {
      assert ([c] + rows)[1..] == rows;
    } else {
      var rest := Insert(c, rows[1..], key);
      assert ([rows[0]] + rest)[1..] == rest;
      InsertIsStable(c, rows[1..], key, k);
    }
  }

  /** Rows with one key keep their order. */
  lemma {:induction false} SortIsStable(rows: seq<Credential>, key: Credential -> (int, int), k: (int, int))
    ensures Where(Sort(rows, key), (x: Credential) => key(x) == k) == Where(rows, (x: Credential) => key(x) == k)
  {
    if rows != [] {
      InsertIsStable(rows[0], Sort(rows[1..], key), key, k);
      SortIsStable(rows[1..], key, k);
    }
  }

  lemma {:induction false} InsertKeepsDistinct(c: Credential, rows: seq<Credential>, key: Credential -> (int, int))
    requires Distinct(rows) && forall d | d in rows :: d.id != c.id
    ensures Distinct(Insert(c, rows, key))
  {
    if rows != [] && !AtLeast(key(c), key(rows[0])) {
      InsertKeepsDistinct(c, rows[1..], key);
      var rest := Insert(c, rows[1..], key);
      forall d | d in rest
        ensures d.id != rows[0].id
      {
        assert d in multiset(rest);
        assert d == c || d in rows[1..];
      }
    }
  }

  lemma {:induction false} SortKeepsDistinct(rows: seq<Credential>, key: Credential -> (int, int))
    requires Distinct(rows)
    ensures Distinct(Sort(rows, key))
  {
    if rows != [] {
      SortKeepsDistinct(rows[1..], key);
      SortKeepsRows(rows[1..], key);
      InsertKeepsDistinct(rows[0], Sort(rows[1..], key), key);
    }
  }

  lemma SortKeepsRows(rows: seq<Credential>, key: Credential -> (int, int))
    ensures forall c :: c in Sort(rows, key) <==> c in rows
  {
    forall c
      ensures c in Sort(rows, key) <==> c in rows
    {
      assert c in multiset(rows) <==> c in rows;
    }
  }

  /** Deduplicating changes a list if and only if two neighbours share an id. */
  lemma {:induction false} DedupIdentityIff(rows: seq<Credential>)
    ensures |Dedup(rows)| <= |rows|
    ensures Dedup(rows) == rows <==> forall i | 0 <= i < |rows| - 1 :: rows[i].id != rows[i + 1].id
    decreases |rows|
  {
    if |rows| >= 2 {
      if rows[0].id == rows[1].id {
        DedupIdentityIff([rows[0]] + rows[2..]);
      } else {
        var rest := rows[1..];
        DedupIdentityIff(rest);
        assert forall i | 0 < i < |rows| - 1 :: rows[i] == rest[i - 1] && rows[i + 1] == rest[i];
      }
    }
  }

  // ---------------------------------------------------------------- the services

  function GetCredential(tables: Tables, actor: Actor, id: Id): Result<Credential, Error> {
    var found := FindCredential(tables.credentials, id);
    if found.None? then Err(NotFound)
    else
      var credential := found.value;
      match actor.role
      case PlatformAdmin => Ok(credential)
      case Student => if credential.recipient == Some(actor.userId) then Ok(credential) else Err(Forbidden)
      case SchoolAdmin => if credential.issuer == actor.userId then Ok(credential) else Err(Forbidden)
      case Parent =>
        var child := FindChild(tables.children, credential.child);
        if child.None? then Err(NotFound)
        else if child.value.owner == actor.userId then Ok(credential)
        else Err(Forbidden)
      case _ => Err(Forbidden)
  }

  /** Whose credential it is to see: everybody's for an administrator, a student's own, a school's issued
      ones, and those of a parent's children. */
  ghost predicate MaySee(tables: Tables, actor: Actor, c: Credential) {
    || actor.role == PlatformAdmin
    || (actor.role == Student && c.recipient == Some(actor.userId))
    || (actor.role == SchoolAdmin && c.issuer == actor.userId)
    || (actor.role == Parent && exists child | child in tables.children :: child == Child(c.child, actor.userId))
  }

  /** A credential is handed out exactly to those who may see it; the others get NotFound for an id that
      is not there, or whose child is not, and Forbidden otherwise. */
  lemma GetCredentialIff(tables: Tables, actor: Actor, id: Id, c: Credential)
    requires Keyed(tables)
    ensures GetCredential(tables, actor, id) == Ok(c)
      <==> c in tables.credentials && c.id == id && MaySee(tables, actor, c)
    ensures c in tables.credentials && c.id == id && !MaySee(tables, actor, c) ==>
      var lost := actor.role == Parent && forall child | child in tables.children :: child.id != c.child;
      GetCredential(tables, actor, id) == Err(if lost then NotFound else Forbidden)
    ensures (forall d | d in tables.credentials :: d.id != id) ==> GetCredential(tables, actor, id) == Err(NotFound)
  {
    var found := FindCredential(tables.credentials, id);
    if c in tables.credentials && c.id == id { DistinctIds(tables.credentials, c, found.value); }
    if found.Some? && actor.role == Parent { OwnedIff(tables.children, found.value.child, actor.userId); }
  }

  lemma OwnedIff(children: seq<Child>, id: Id, owner: Id)
    requires DistinctChildren(children)
    ensures var child := FindChild(children, id);
      (exists other | other in children :: other == Child(id, owner)) <==> child.Some? && child.value.owner == owner
  {
    var child := FindChild(children, id);
    if other :| other in children && other == Child(id, owner) {
      DistinctChildIds(children, other, child.value);
    }
    if child.Some? && child.value.owner == owner { assert child.value == Child(id, owner); }
  }

  function ListByChild(tables: Tables, child: Id): seq<Credential> {
    Sort(Where(tables.credentials, (c: Credential) => c.child == child), ByDate)
  }

  function ListByRecipient(tables: Tables, user: Id): seq<Credential> {
    Sort(Where(tables.credentials, (c: Credential) => c.recipient == Some(user)), ByDate)
  }

  function ListByIssuer(tables: Tables, user: Id): seq<Credential> {
    Sort(Where(tables.credentials, (c: Credential) => c.issuer == user), ByAge)
  }

  function ListRecent(tables: Tables, limit: nat): seq<Credential> {
    var rows := Sort(tables.credentials, ByAge);
    if |rows| <= limit then rows else rows[..limit]
  }

  /** Exactly the rows of `table` that are `wanted`, each once. */
  ghost predicate Lists(rows: seq<Credential>, table: seq<Credential>, wanted: Credential -> bool) {
    Distinct(rows) && forall c :: c in rows <==> c in table && wanted(c)
  }

  lemma QueryLists(table: seq<Credential>, wanted: Credential -> bool, key: Credential -> (int, int))
    requires Distinct(table)
    ensures Lists(Sort(Where(table, wanted), key), table, wanted)
  {
    SortKeepsRows(Where(table, wanted), key);
    SortKeepsDistinct(Where(table, wanted), key);
  }

  lemma DistinctIds(rows: seq<Credential>, c: Credential, d: Credential)
    requires Distinct(rows) && c in rows && d in rows && c.id == d.id
    ensures c == d
  {
  }

  lemma DistinctChildIds(rows: seq<Child>, c: Child, d: Child)
    requires DistinctChildren(rows) && c in rows && d in rows && c.id == d.id
    ensures c == d
  {
  }

  predicate Among(children: seq<Child>, id: Id) {
    exists k | 0 <= k < |children| :: children[k].id == id
  }

  /** Exactly the credentials of these children, each once. */
  ghost predicate Merged(rows: seq<Credential>, table: seq<Credential>, mine: seq<Child>) {
    Distinct(rows) && forall c :: c in rows <==> c in table && Among(mine, c.child)
  }

  lemma AmongOneMore(mine: seq<Child>, n: nat, id: Id)
    requires n < |mine|
    ensures Among(mine[..n + 1], id) <==> Among(mine[..n], id) || mine[n].id == id
  {
    if Among(mine[..n], id) {
      var k :| 0 <= k < n && mine[..n][k].id == id;
      assert mine[..n + 1][k].id == id;
    }
    if mine[n].id == id { assert mine[..n + 1][n].id == id; }
  }

  lemma MergeOneMore(tables: Tables, rows: seq<Credential>, mine: seq<Child>, n: nat)
    requires Keyed(tables) && n < |mine| && DistinctChildren(mine)
    requires Merged(rows, tables.credentials, mine[..n])
    ensures Merged(rows + ListByChild(tables, mine[n].id), tables.credentials, mine[..n + 1])
  {
    var more := ListByChild(tables, mine[n].id);
    QueryLists(tables.credentials, (c: Credential) => c.child == mine[n].id, ByDate);
    var all := rows + more;
    forall i, j | 0 <= i < j < |all|
      ensures all[i].id != all[j].id
    {
      if i < |rows| && j >= |rows| {
        assert all[i] in rows && all[j] in more;
        if all[i].id == all[j].id { DistinctIds(tables.credentials, all[i], all[j]); }
      }
    }
    forall c
      ensures c in all <==> c in tables.credentials && Among(mine[..n + 1], c.child)
    {
      AmongOneMore(mine, n, c.child);
    }
  }

  /** For a parent, the merged list is what lookup accepts. */
  lemma MergedIsGettable(tables: Tables, actor: Actor, rows: seq<Credential>)
    requires Keyed(tables) && actor.role == Parent
    requires Merged(rows, tables.credentials, ChildrenOf(tables.children, actor.userId))
    ensures forall c :: c in rows <==> GetCredential(tables, actor, c.id) == Ok(c)
  {
    var mine := ChildrenOf(tables.children, actor.userId);
    forall c
      ensures c in rows <==> GetCredential(tables, actor, c.id) == Ok(c)
    {
      FoundIff(tables, c);
      if c in tables.credentials {
        var child := FindChild(tables.children, c.child);
        if c in rows {
          var k :| 0 <= k < |mine| && mine[k].id == c.child;
          assert mine[k] in mine;
          DistinctChildIds(tables.children, mine[k], child.value);
        }
      }
    }
  }

  /** Looking up a row's own id finds that row. */
  lemma FoundIff(tables: Tables, c: Credential)
    requires Keyed(tables)
    ensures c in tables.credentials <==> FindCredential(tables.credentials, c.id) == Some(c)
  {
    if c in tables.credentials {
      DistinctIds(tables.credentials, c, FindCredential(tables.credentials, c.id).value);
    }
  }

  /** The newest rows: distinct, and no unlisted row is newer than a listed one. */
  lemma RecentAreNewest(tables: Tables, limit: nat)
    requires Keyed(tables)
    ensures var rows := ListRecent(tables, limit);
      && Distinct(rows) && |rows| == (if |tables.credentials| <= limit then |tables.credentials| else limit)
      && (forall c | c in rows :: c in tables.credentials)
      && forall c, d | c in rows && d in tables.credentials && d !in rows :: d.createdAt <= c.createdAt
  {
    var sorted := Sort(tables.credentials, ByAge);
    SortKeepsRows(tables.credentials, ByAge);
    SortKeepsDistinct(tables.credentials, ByAge);
    assert |sorted| == |multiset(sorted)| == |tables.credentials|;
    if limit < |sorted| { PrefixIsNewest(sorted, limit); }
  }

  lemma PrefixIsNewest(sorted: seq<Credential>, limit: nat)
    requires Descending(sorted, ByAge) && limit <= |sorted|
    ensures forall c, d | c in sorted[..limit] && d in sorted && d !in sorted[..limit] :: d.createdAt <= c.createdAt
  {
    forall c, d | c in sorted[..limit] && d in sorted && d !in sorted[..limit]
      ensures d.createdAt <= c.createdAt
    {
      var i :| 0 <= i < limit && sorted[i] == c;
      var j :| 0 <= j < |sorted| && sorted[j] == d;
      assert AtLeast(ByAge(sorted[i]), ByAge(sorted[j]));
    }
  }

  /** Whose filters are refused, and with what. */
  function Refusal(tables: Tables, actor: Actor, filter: Filter): Option<Error> {
    match actor.role
    case Parent =>
      if filter.child.None? then None
      else
        var child := FindChild(tables.children, filter.child.value);
        if child.None? then Some(NotFound) else if child.value.owner != actor.userId then Some(Forbidden) else None
    case Student => if filter.child.Some? || filter.issuedByMe then Some(Forbidden) else None
    case SchoolAdmin => if filter.child.Some? then Some(Forbidden) else None
    case PlatformAdmin => None
    case _ => Some(Forbidden)
  }

  /** What a filter further asks of a credential that lookup accepts. */
  predicate PassesFilter(actor: Actor, filter: Filter, c: Credential) {
    match actor.role
    case Parent => filter.child.Some? ==> c.child == filter.child.value
    case PlatformAdmin =>
      if filter.issuedByMe then c.issuer == actor.userId else filter.child.Some? ==> c.child == filter.child.value
    case _ => true
  }

  /** The administrator's unfiltered list stops at the newest 200. */
  predicate IsCapped(actor: Actor, filter: Filter) {
    actor.role == PlatformAdmin && !filter.issuedByMe && filter.child.None?
  }

  /** The rows before the final sort are exactly those that lookup accepts and the filter passes. */
  ghost predicate Agrees(tables: Tables, actor: Actor, filter: Filter, rows: seq<Credential>) {
    && Distinct(rows)
    && forall c :: c in rows <==> GetCredential(tables, actor, c.id) == Ok(c) && PassesFilter(actor, filter, c)
  }

  lemma QueryAgrees(tables: Tables, actor: Actor, filter: Filter, wanted: Credential -> bool,
    key: Credential -> (int, int))
    requires Keyed(tables)
    requires forall c: Credential | FindCredential(tables.credentials, c.id) == Some(c) ::
      wanted(c) <==> GetCredential(tables, actor, c.id) == Ok(c) && PassesFilter(actor, filter, c)
    ensures Agrees(tables, actor, filter, Sort(Where(tables.credentials, wanted), key))
  {
    QueryLists(tables.credentials, wanted, key);
    forall c
      ensures c in Sort(Where(tables.credentials, wanted), key)
        <==> GetCredential(tables, actor, c.id) == Ok(c) && PassesFilter(actor, filter, c)
    {
      FoundIff(tables, c);
    }
  }

  lemma OwnChildAgrees(tables: Tables, actor: Actor, filter: Filter)
    requires Keyed(tables) && actor.role == Parent && filter.child.Some? && Refusal(tables, actor, filter).None?
    ensures Agrees(tables, actor, filter, ListByChild(tables, filter.child.value))
  {
    QueryAgrees(tables, actor, filter, (c: Credential) => c.child == filter.child.value, ByDate);
  }

  /** The final sort and deduplication put distinct rows in order and lose none. */
  lemma FinishKeeps(items: seq<Credential>)
    requires Distinct(items)
    ensures var rows := Dedup(Sort(items, ByDate));
      Descending(rows, ByDate) && Distinct(rows) && forall c :: c in rows <==> c in items
  {
    SortKeepsRows(items, ByDate);
    SortKeepsDistinct(items, ByDate);
    DedupIdentityIff(Sort(items, ByDate));
  }

  /** One query per child, the answers joined in order. */
  method MergeByChild(tables: Tables, children: seq<Child>) returns (merged: seq<Credential>)
    requires Keyed(tables) && DistinctChildren(children)
    ensures Merged(merged, tables.credentials, children)
  {
    merged := [];
    for n := 0 to |children|
      invariant Merged(merged, tables.credentials, children[..n])
    {
      MergeOneMore(tables, merged, children, n);
      merged := merged + ListByChild(tables, children[n].id);
    }
    assert children[..|children|] == children;
  }

  /** The rows before the final sort, by role and filter. */
  method FetchCredentials(tables: Tables, actor: Actor, filter: Filter) returns (reply: Result<seq<Credential>, Error>)
    requires Keyed(tables)
    ensures reply.Err? <==> Refusal(tables, actor, filter).Some?
    ensures reply.Err? ==> reply.error == Refusal(tables, actor, filter).value
    ensures reply.Ok? && !IsCapped(actor, filter) ==> Agrees(tables, actor, filter, reply.value)
    ensures reply.Ok? && IsCapped(actor, filter) ==> reply.value == ListRecent(tables, RECENT)
  {
    match actor.role {
      case Parent =>
        if filter.child.Some? {
          var child := FindChild(tables.children, filter.child.value);
          if child.None? { return Err(NotFound); }
          if child.value.owner != actor.userId { return Err(Forbidden); }
          OwnChildAgrees(tables, actor, filter);
          return Ok(ListByChild(tables, filter.child.value));
        }
        var merged := MergeByChild(tables, ChildrenOf(tables.children, actor.userId));
        MergedIsGettable(tables, actor, merged);
        return Ok(merged);
      case Student =>
        if filter.child.Some? || filter.issuedByMe { return Err(Forbidden); }
        QueryAgrees(tables, actor, filter, (c: Credential) => c.recipient == Some(actor.userId), ByDate);
        return Ok(ListByRecipient(tables, actor.userId));
      case SchoolAdmin =>
        if filter.child.Some? { return Err(Forbidden); }
        QueryAgrees(tables, actor, filter, (c: Credential) => c.issuer == actor.userId, ByAge);
        return Ok(ListByIssuer(tables, actor.userId));
      case PlatformAdmin =>
        if filter.issuedByMe {
          QueryAgrees(tables, actor, filter, (c: Credential) => c.issuer == actor.userId, ByAge);
          return Ok(ListByIssuer(tables, actor.userId));
        }
        if filter.child.Some? {
          QueryAgrees(tables, actor, filter, (c: Credential) => c.child == filter.child.value, ByDate);
          return Ok(ListByChild(tables, filter.child.value));
        }
        return Ok(ListRecent(tables, RECENT));
      case _ => return Err(Forbidden);
    }
  }

  /** What a filter further asks: the child, or for an administrator who asks for his own issues those. */
  predicate Asked(actor: Actor, filter: Filter, c: Credential) {
    if actor.role == PlatformAdmin && filter.issuedByMe then c.issuer == actor.userId
    else if actor.role == PlatformAdmin || actor.role == Parent then
      filter.child == None || filter.child == Some(c.child)
    else true
  }

  /** The list, said on the tables alone. */
  lemma AgreesIff(tables: Tables, actor: Actor, filter: Filter, rows: seq<Credential>)
    requires Keyed(tables)
    ensures Agrees(tables, actor, filter, rows)
      <==> && Distinct(rows)
           && forall c :: c in rows <==> c in tables.credentials && MaySee(tables, actor, c) && Asked(actor, filter, c)
  {
    forall c: Credential
      ensures GetCredential(tables, actor, c.id) == Ok(c) && PassesFilter(actor, filter, c)
        <==> c in tables.credentials && MaySee(tables, actor, c) && Asked(actor, filter, c)
    {
      GetCredentialIff(tables, actor, c.id, c);
    }
  }

  /** A parent's filter by a child that is missing or another's, a student's by anything, a school's by a
      child, and any list for a contributor or donor are refused; nothing else is. */
  lemma RefusalIff(tables: Tables, actor: Actor, filter: Filter)
    requires Keyed(tables)
    ensures var byMissing := actor.role == Parent && filter.child.Some?
        && forall child | child in tables.children :: child.id != filter.child.value;
      var byOthers := actor.role == Parent && filter.child.Some?
        && forall child | child in tables.children :: child != Child(filter.child.value, actor.userId);
      Refusal(tables, actor, filter)
        == if byMissing then Some(NotFound)
           else if byOthers || (actor.role == Student && (filter.child.Some? || filter.issuedByMe))
             || (actor.role == SchoolAdmin && filter.child.Some?)
             || actor.role == Contributor || actor.role == Donor
           then Some(Forbidden)
           else None
  {
    if actor.role == Parent && filter.child.Some? {
      OwnedIff(tables.children, filter.child.value, actor.userId);
    }
  }

  /** Newest achievement first, and of one day the newest entry first. */
  predicate NewestFirst(rows: seq<Credential>) {
    forall i, j | 0 <= i < j < |rows| ::
      rows[i].date > rows[j].date || (rows[i].date == rows[j].date && rows[i].createdAt >= rows[j].createdAt)
  }

  lemma ByDateIsNewestFirst(rows: seq<Credential>)
    ensures Descending(rows, ByDate) <==> NewestFirst(rows)
  {
    forall i, j | 0 <= i < j < |rows|
      ensures AtLeast(ByDate(rows[i]), ByDate(rows[j]))
        <==> rows[i].date > rows[j].date || (rows[i].date == rows[j].date && rows[i].createdAt >= rows[j].createdAt)
    {
    }
  }

  /** The administrator's capped list: at most 200 rows, all of them when there are no more, and none older
      than one left out. */
  ghost predicate NewestTwoHundred(tables: Tables, rows: seq<Credential>) {
    && |rows| == (if |tables.credentials| <= 200 then |tables.credentials| else 200)
    && (forall c | c in rows :: c in tables.credentials)
    && forall c, d | c in rows && d in tables.credentials && d !in rows :: d.createdAt <= c.createdAt
  }

  lemma SameRowsSameLength(one: seq<Credential>, two: seq<Credential>)
    requires Distinct(one) && Distinct(two) && forall c :: c in one <==> c in two
    ensures |one| == |two|
  {
    DistinctIsItsSet(one);
    DistinctIsItsSet(two);
    assert AsSet(one) == AsSet(two);
  }

  function AsSet(rows: seq<Credential>): set<Credential> {
    set c | c in rows
  }

  lemma AsSetOneMore(c: Credential, rest: seq<Credential>)
    ensures AsSet([c] + rest) == {c} + AsSet(rest)
  {
  }

  lemma HeadIsNew(c: Credential, rest: seq<Credential>)
    requires Distinct([c] + rest)
    ensures c !in AsSet(rest) && Distinct(rest)
  {
    var rows := [c] + rest;
    forall k | 0 <= k < |rest|
      ensures rest[k].id != c.id && rest[k] == rows[k + 1]
    {
      assert rows[0].id != rows[k + 1].id;
    }
  }

  lemma {:induction false} DistinctIsItsSet(rows: seq<Credential>)
    requires Distinct(rows)
    ensures |AsSet(rows)| == |rows|
  {
    if rows == [] {
      assert AsSet(rows) == {};
    } else {
      var c, rest := rows[0], rows[1..];
      assert rows == [c] + rest;
      HeadIsNew(c, rest);
      AsSetOneMore(c, rest);
      DistinctIsItsSet(rest);
    }
  }

  /** The list is in order, holds no credential twice, and holds exactly those credentials that
      `get_credential` returns to the same user and the filter passes (for an administrator without
      a filter: the newest 200 of them). */
  method ListCredentials(tables: Tables, actor: Actor, filter: Filter) returns (reply: Result<seq<Credential>, Error>)
    requires Keyed(tables)
    ensures reply.Err? <==> Refusal(tables, actor, filter).Some?
    ensures reply.Err? ==> reply.error == Refusal(tables, actor, filter).value
    ensures reply.Ok? ==> Descending(reply.value, ByDate) && Distinct(reply.value)
    ensures reply.Ok? && !IsCapped(actor, filter) ==> Agrees(tables, actor, filter, reply.value)
    ensures reply.Ok? && IsCapped(actor, filter) ==> forall c :: c in reply.value <==> c in ListRecent(tables, RECENT)
    ensures reply.Ok? ==> NewestFirst(reply.value)
    ensures reply.Ok? && actor.role == PlatformAdmin && !filter.issuedByMe && filter.child == None ==>
      NewestTwoHundred(tables, reply.value)
    ensures reply.Ok? && (actor.role != PlatformAdmin || filter.issuedByMe || filter.child != None) ==>
      forall c :: c in reply.value <==>
        c in tables.credentials && MaySee(tables, actor, c) && Asked(actor, filter, c)
  {
    var fetched := FetchCredentials(tables, actor, filter);
    if fetched.Err? { return fetched; }
    var items := fetched.value;
    RecentAreNewest(tables, RECENT);
    FinishKeeps(items);
    items := Sort(items, ByDate);
    items := Dedup(items);
    ByDateIsNewestFirst(items);
    if IsCapped(actor, filter) {
      SameRowsSameLength(items, ListRecent(tables, RECENT));
    } else {
      AgreesIff(tables, actor, filter, items);
    }
    return Ok(items);
  }
}
