/** The one-time migration that replaces legacy gateway secrets by a mask and a hash
    (backend/internal/db/schema.go), and the lookup it must not disturb (repos.go). */
module KeyMigration {
  import opened Basics
  import opened Strings

  datatype Row = Row(key: string, keyHash: Option<string>, userId: Option<string>, clientId: Option<string>, accountTypeId: Option<string>)

  /** The apiKeys table by id. Keys are unique. */
  type KeyTable = map<string, Row>

  type Hash = string -> string

  ghost predicate UniqueKeys(t: KeyTable) {
    forall id, id' :: id in t && id' in t && id != id' ==> t[id].key != t[id'].key
  }

  /** The WHERE clause by which a presented secret finds its row. */
  predicate Matches(row: Row, secret: string, hash: Hash) {
    if row.keyHash.Some? then row.keyHash.value == hash(secret) else row.key == secret
  }

  /** Something is left of the key after SQL's trim. */
  predicate HasText(key: string) {
    exists i :: 0 <= i < |key| && key[i] != ' '
  }

  predicate IsLegacy(row: Row) {
    row.userId.None? && row.keyHash.None? && HasText(row.key)
  }

  function Legacy(t: KeyTable): set<string> {
    set id | id in t && IsLegacy(t[id])
  }

  // ----- the unique mask -----

  /** The hash is hexadecimal SHA-256; only its length matters here. */
  ghost predicate LongHash(hash: Hash) {
    forall s :: |hash(s)| >= 12
  }

  function Base(secret: string, hash: Hash): string
    requires LongHash(hash)
  {
    if |secret| <= 12 then "legacy_" + hash(secret)[..12] else secret[..12]
  }

  function Candidate(base: string, n: nat): string {
    if n == 0 then base else base + "~" + Decimal(n)
  }

  predicate Taken(t: KeyTable, id: string, key: string) {
    exists other :: other in t && other != id && t[other].key == key
  }

  lemma {:induction false} CandidatesDiffer(base: string, m: nat, n: nat)
    requires Candidate(base, m) == Candidate(base, n)
    ensures m == n
  {
    DecimalReads(m);
    DecimalReads(n);
    if m > 0 && n > 0 {
      assert Candidate(base, m)[|base| + 1..] == Decimal(m);
      assert Candidate(base, n)[|base| + 1..] == Decimal(n);
    }
  }

  /** Rows whose key is one of the first `n` candidates. */
  function Holders(t: KeyTable, base: string, n: nat): set<string> {
    set id, m | id in t && 0 <= m < n && t[id].key == Candidate(base, m) :: id
  }

  /** Pigeonhole: a table cannot hold more candidates than it has rows. */
  lemma {:induction false} CandidatesRunOut(t: KeyTable, id: string, base: string, n: nat)
    requires forall m :: 0 <= m < n ==> Taken(t, id, Candidate(base, m))
    ensures n <= |Holders(t, base, n)| <= |t|
  {
    var holders := Holders(t, base, n);
    Subset(holders, t.Keys);
    if n > 0 {
      var before := Holders(t, base, n - 1);
      CandidatesRunOut(t, id, base, n - 1);
      assert Taken(t, id, Candidate(base, n - 1));
      var other :| other in t && other != id && t[other].key == Candidate(base, n - 1);
      forall m | 0 <= m < n - 1 ensures Candidate(base, m) != Candidate(base, n - 1) {
        if Candidate(base, m) == Candidate(base, n - 1) {
          CandidatesDiffer(base, m, n - 1);
        }
      }
      assert other !in before;
      assert before + {other} <= holders;
      Subset(before + {other}, holders);
    }
  }

  lemma {:induction false} Subset(a: set<string>, b: set<string>)
    requires a <= b
    ensures |a| <= |b|
  {
    if a != {} {
      var x :| x in a;
      Subset(a - {x}, b - {x});
    }
  }

  /** The first free candidate, looking from the n-th on. */
  function FirstFree(t: KeyTable, id: string, base: string, n: nat): (k: nat)
    requires forall m :: 0 <= m < n ==> Taken(t, id, Candidate(base, m))
    ensures !Taken(t, id, Candidate(base, k))
    decreases |t| + 1 - n
  {
    CandidatesRunOut(t, id, base, n);
    if Taken(t, id, Candidate(base, n)) then FirstFree(t, id, base, n + 1) else n
  }

  function Mask(t: KeyTable, id: string, secret: string, hash: Hash): string
    requires LongHash(hash)
  {
    Candidate(Base(secret, hash), FirstFree(t, id, Base(secret, hash), 0))
  }

  method UniqueMaskedAPIKey(t: KeyTable, id: string, secret: string, hash: Hash) returns (candidate: string)
    requires LongHash(hash)
    ensures candidate == Mask(t, id, secret, hash)
    ensures !Taken(t, id, candidate)
  {
    var base := if |secret| <= 12 then "legacy_" + hash(secret)[..12] else secret[..12];
    candidate := base;
    var suffix := 0;
    while Taken(t, id, candidate)
      invariant candidate == Candidate(base, suffix)
      invariant forall m :: 0 <= m < suffix ==> Taken(t, id, Candidate(base, m))
      invariant FirstFree(t, id, base, 0) == FirstFree(t, id, base, suffix)
      decreases |t| + 1 - suffix
    {
      suffix := suffix + 1;
      CandidatesRunOut(t, id, base, suffix);
      candidate := base + "~" + Decimal(suffix);
    }
  }

  // ----- the migration -----

  predicate BlankClient(row: Row) {
    row.clientId.None? || TrimSpace(row.clientId.value) == ""
  }

  function MigratedRow(t: KeyTable, id: string, hash: Hash): Row
    requires id in t && LongHash(hash)
  {
    var row := t[id];
    Row(Mask(t, id, row.key, hash), Some(hash(row.key)), row.userId, row.clientId,
        if BlankClient(row) then Some("administrator") else row.accountTypeId)
  }

  /** The rows listed in `order` migrated one after the other. */
  function MigrateRows(t: KeyTable, order: seq<string>, hash: Hash): KeyTable
    requires LongHash(hash)
  {
    if order == [] then t else
    var before, id := MigrateRows(t, order[..|order| - 1], hash), order[|order| - 1];
    if id in before then before[id := MigratedRow(before, id, hash)] else before
  }

  datatype Stats = Stats(alreadyApplied: bool, found: nat, hashed: nat, skipped: nat, clientId: nat, userKeyRetained: nat)

  const NO_STATS := Stats(false, 0, 0, 0, 0, 0)

  function ClientOwned(t: KeyTable, order: seq<string>): nat {
    if order == [] then 0 else
    var id := order[|order| - 1];
    ClientOwned(t, order[..|order| - 1]) + if id in t && !BlankClient(t[id]) then 1 else 0
  }

  function UserOwned(t: KeyTable): set<string> {
    set id | id in t && t[id].userId.Some?
  }

  class KeyStore {
    var apiKeys: KeyTable
    var marker: Option<string>

    /** Hashes one row; a client's row keeps its tier and counts as skipped. */
    method MigrateOne(id: string, hash: Hash) returns (skipped: bool)
      requires id in apiKeys && LongHash(hash)
      modifies this`apiKeys
      ensures apiKeys == old(apiKeys)[id := MigratedRow(old(apiKeys), id, hash)]
      ensures skipped == !BlankClient(old(apiKeys)[id])
    {
      var row := apiKeys[id];
      var masked := UniqueMaskedAPIKey(apiKeys, id, row.key, hash);
      var updated := row.(key := masked, keyHash := Some(hash(row.key)));
      skipped := !BlankClient(row);
      if !skipped {
        updated := updated.(accountTypeId := Some("administrator"));
      }
      apiKeys := apiKeys[id := updated];
    }

    /** One transaction. Returns the order in which the database listed the legacy rows. */
    method MigrateLegacyGatewayKeys(hash: Hash) returns (stats: Stats, order: seq<string>)
      requires UniqueKeys(apiKeys) && LongHash(hash)
      modifies this
      ensures UniqueKeys(apiKeys) && marker == Some("complete")
      ensures if old(marker) == Some("complete")
              then stats == NO_STATS.(alreadyApplied := true) && order == [] && apiKeys == old(apiKeys)
              else && Enumerates(order, Legacy(old(apiKeys)))
                   && apiKeys == MigrateRows(old(apiKeys), order, hash)
                   && stats == Stats(false, |order|, |order|, ClientOwned(old(apiKeys), order), ClientOwned(old(apiKeys), order),
                                     |UserOwned(old(apiKeys))|)
    {
      hide Mask, IsLegacy, BlankClient, UniqueKeys, MigratedRow, UserOwned, HasText, LongHash;
      stats, order := NO_STATS, [];
      if marker == Some("complete") {
        return NO_STATS.(alreadyApplied := true), [];
      }
      stats := stats.(userKeyRetained := |UserOwned(apiKeys)|);
      var candidates := ListRows(Legacy(apiKeys));
      stats := stats.(found := |candidates|);
      ghost var before := apiKeys;
      assert candidates[..0] == [];
      for n := 0 to |candidates|
        invariant apiKeys == MigrateRows(before, candidates[..n], hash)
        invariant marker == old(marker)
        invariant stats == Stats(false, |candidates|, n, ClientOwned(before, candidates[..n]), ClientOwned(before, candidates[..n]),
                                 |UserOwned(before)|)
      {
        var id := candidates[n];
        assert candidates[..n + 1][..n] == candidates[..n];
        UntouchedYet(before, candidates, n, hash);
        var skipped := MigrateOne(id, hash);
        if skipped {
          stats := stats.(clientId := stats.clientId + 1, skipped := stats.skipped + 1);
        }
        stats := stats.(hashed := stats.hashed + 1);
      }
      assert candidates[..|candidates|] == candidates;
      marker := Some("complete");
      order := candidates;
      MigrationKeepsUnique(before, order, hash);
    }
  }

  /** A query result: the rows in some order. */
  method ListRows(ids: set<string>) returns (rows: seq<string>)
    ensures Enumerates(rows, ids)
  {
    rows := [];
    var remaining := ids;
    while remaining != {}
      invariant NoDuplicates(rows) && remaining <= ids
      invariant forall x :: x in rows <==> x in ids && x !in remaining
      decreases remaining
    {
      var id := AnyElement(remaining);
      rows, remaining := rows + [id], remaining - {id};
    }
  }

  // ----- what the migration keeps -----

  /** Rows not listed are unchanged; listed ones keep their owner columns. */
  lemma {:induction false} MigrationTouches(t: KeyTable, order: seq<string>, hash: Hash)
    requires LongHash(hash)
    ensures var t' := MigrateRows(t, order, hash);
            && t'.Keys == t.Keys
            && forall id :: id in t && id !in order ==> t'[id] == t[id]
  {
    if order != [] {
      MigrationTouches(t, order[..|order| - 1], hash);
      assert forall id :: id in order[..|order| - 1] ==> id in order;
    }
  }

  /** When its turn comes a row is as the query saw it, so the guarded UPDATE hits it. */
  lemma {:induction false} UntouchedYet(t: KeyTable, order: seq<string>, n: nat, hash: Hash)
    requires LongHash(hash) && Enumerates(order, Legacy(t)) && n < |order|
    ensures var before := MigrateRows(t, order[..n], hash);
            order[n] in t && order[n] in before && before[order[n]] == t[order[n]] && IsLegacy(before[order[n]])
  {
    assert order[n] in order && order[n] in Legacy(t);
    MigrationTouches(t, order[..n], hash);
    assert order[n] !in order[..n];
  }

  lemma {:induction false} OneMaskKeepsUnique(t: KeyTable, id: string, row: Row)
    requires UniqueKeys(t) && id in t && !Taken(t, id, row.key)
    ensures UniqueKeys(t[id := row])
  {
  }

  lemma {:induction false} MigrationKeepsUnique(t: KeyTable, order: seq<string>, hash: Hash)
    requires LongHash(hash) && UniqueKeys(t)
    ensures UniqueKeys(MigrateRows(t, order, hash))
  {
    if order != [] {
      MigrationKeepsUnique(t, order[..|order| - 1], hash);
      var before, id := MigrateRows(t, order[..|order| - 1], hash), order[|order| - 1];
      if id in before {
        OneMaskKeepsUnique(before, id, MigratedRow(before, id, hash));
      }
    }
  }

  ghost predicate Injective(hash: Hash) {
    forall a, b :: hash(a) == hash(b) ==> a == b
  }

  /** Every row answers to exactly the secrets it answered to before. */
  lemma {:induction false} MigrationKeepsMatches(t: KeyTable, order: seq<string>, hash: Hash, id: string, secret: string)
    requires LongHash(hash) && Injective(hash) && Enumerates(order, Legacy(t)) && id in t
    ensures id in MigrateRows(t, order, hash)
    ensures Matches(MigrateRows(t, order, hash)[id], secret, hash) <==> Matches(t[id], secret, hash)
  {
    MigrationTouches(t, order, hash);
    if id in order {
      var n :| 0 <= n < |order| && order[n] == id;
      MigratedAt(t, order, n, hash);
    }
  }

  /** The rows a presented secret finds. */
  function Found(t: KeyTable, secret: string, hash: Hash): set<string> {
    set id | id in t && Matches(t[id], secret, hash)
  }

  /** The lookup by secret finds the same rows before and after. */
  lemma {:induction false} MigrationKeepsLookup(t: KeyTable, order: seq<string>, hash: Hash, secret: string)
    requires LongHash(hash) && Injective(hash) && Enumerates(order, Legacy(t))
    ensures Found(MigrateRows(t, order, hash), secret, hash) == Found(t, secret, hash)
  {
    MigrationTouches(t, order, hash);
    forall id | id in t ensures id in Found(MigrateRows(t, order, hash), secret, hash) <==> id in Found(t, secret, hash) {
      MigrationKeepsMatches(t, order, hash, id, secret);
    }
  }

  /** A listed row ends up hashed, with the hash of the secret it held. */
  lemma {:induction false} MigratedAt(t: KeyTable, order: seq<string>, n: nat, hash: Hash)
    requires LongHash(hash) && Enumerates(order, Legacy(t)) && n < |order|
    ensures var t', id := MigrateRows(t, order, hash), order[n];
            id in t' && id in t && t'[id].keyHash == Some(hash(t[id].key)) && IsLegacy(t[id])
  {
    UntouchedYet(t, order, n, hash);
    assert order[n] in order && order[n] in Legacy(t);
    assert order[..n + 1][..n] == order[..n];
    var after := MigrateRows(t, order[..n + 1], hash);
    assert after[order[n]].keyHash == Some(hash(t[order[n]].key));
    RestKeeps(t, order, n, |order|, hash);
    assert order[..|order|] == order;
  }

  lemma {:induction false} RestKeeps(t: KeyTable, order: seq<string>, n: nat, m: nat, hash: Hash)
    requires LongHash(hash) && NoDuplicates(order) && n < m <= |order|
    requires order[n] in MigrateRows(t, order[..n + 1], hash)
    ensures order[n] in MigrateRows(t, order[..m], hash)
    ensures MigrateRows(t, order[..m], hash)[order[n]] == MigrateRows(t, order[..n + 1], hash)[order[n]]
    decreases m
  {
    if n + 1 < m {
      RestKeeps(t, order, n, m - 1, hash);
      assert order[..m][..m - 1] == order[..m - 1];
    }
  }

  /** Nothing legacy is left, so a second run, even without its marker, would find nothing to do. */
  lemma {:induction false} NothingLegacyLeft(t: KeyTable, order: seq<string>, hash: Hash)
    requires LongHash(hash) && Enumerates(order, Legacy(t))
    ensures Legacy(MigrateRows(t, order, hash)) == {}
  {
    MigrationTouches(t, order, hash);
    var t' := MigrateRows(t, order, hash);
    forall id ensures id !in Legacy(t') {
      if id in order {
        var n :| 0 <= n < |order| && order[n] == id;
        MigratedAt(t, order, n, hash);
      } else if id in t {
        assert id !in Legacy(t);
      }
    }
  }
}
