/** The database-backed token store and its in-memory cache, one operation at a time (internal/auth/store.go).
    TokenStaleness treats the same store under concurrency. */
module TokenStore {
  import opened Wrappers
  import opened Text

  /** What authentication learns about a token. */
  datatype TokenInfo = TokenInfo(name: string, enabled: bool, rateLimit: int, scope: string,
                                 allowedMethods: seq<string>, expiresAt: Option<int>)

  /** A row of the tokens table. Times are instants, `methods` is the comma-joined column. */
  datatype Row = Row(id: nat, hash: string, prefix: string, name: string, enabled: bool, rateLimit: int,
                     scope: string, methods: string, expiresAt: Option<int>, createdAt: int, updatedAt: int)

  /** A row as the administration interface shows it: without the hash. */
  datatype Token = Token(id: nat, name: string, prefix: string, enabled: bool, rateLimit: int, scope: string,
                         allowedMethods: seq<string>, expiresAt: Option<int>, createdAt: int, updatedAt: int)

  datatype CreateRequest = CreateRequest(name: string, enabled: Option<bool>, rateLimit: int, scope: string,
                                         allowedMethods: seq<string>, expiresAt: Option<int>)

  datatype UpdateRequest = UpdateRequest(name: Option<string>, enabled: Option<bool>, rateLimit: Option<int>,
                                         scope: Option<string>, allowedMethods: Option<seq<string>>,
                                         expiresAt: Option<int>)

  datatype TokenConfig = TokenConfig(token: string, name: string, enabled: bool, rateLimit: int,
                                     allowedMethods: seq<string>)

  /** A token together with its plaintext, returned once. */
  datatype Issued = Issued(token: Token, plaintext: string)

  datatype StoreError = ReadFailed | WriteFailed | NoRandomness | NotFound

  /** What the database and the clock do during one operation. */
  datatype Env = Env(readOk: bool, writeOk: bool, reloadOk: bool, now: int, loadedAt: int)

  /** The methods column read back. */
  function MethodsOf(column: string): seq<string> {
    if column == "" then [] else Split(column, ',')
  }

  function InfoOf(r: Row): TokenInfo {
    TokenInfo(r.name, r.enabled, r.rateLimit, r.scope, MethodsOf(r.methods), r.expiresAt)
  }

  function TokenOf(r: Row): Token {
    Token(r.id, r.name, r.prefix, r.enabled, r.rateLimit, r.scope, MethodsOf(r.methods), r.expiresAt, r.createdAt,
          r.updatedAt)
  }

  /** The table constraints: ids and hashes identify rows. */
  predicate UniqueRows(rows: seq<Row>) {
    forall i, j :: 0 <= i < j < |rows| ==> rows[i].id != rows[j].id && rows[i].hash != rows[j].hash
  }

  /** Ids are handed out in order. */
  predicate TableOk(rows: seq<Row>, nextId: nat) {
    UniqueRows(rows) && forall i :: 0 <= i < |rows| ==> rows[i].id < nextId
  }

  predicate HasHash(rows: seq<Row>, hash: string) {
    exists i :: 0 <= i < |rows| && rows[i].hash == hash
  }

  predicate HasName(rows: seq<Row>, name: string) {
    exists i :: 0 <= i < |rows| && rows[i].name == name
  }

  /** The table as a map from hash to token settings. */
  function View(rows: seq<Row>): map<string, TokenInfo> {
    if rows == [] then map[] else View(rows[..|rows| - 1])[rows[|rows| - 1].hash := InfoOf(rows[|rows| - 1])]
  }

  function Get(m: map<string, TokenInfo>, hash: string): Option<TokenInfo> {
    if hash in m then Some(m[hash]) else None
  }

  /** The first row with the given id. */
  function IndexOf(rows: seq<Row>, id: nat): (r: Option<nat>)
    ensures r.Some? ==> r.value < |rows| && rows[r.value].id == id
    ensures r.None? ==> forall i :: 0 <= i < |rows| ==> rows[i].id != id
  {
    if rows == [] then None
    else if rows[0].id == id then Some(0)
    else match IndexOf(rows[1..], id) case None => None case Some(i) => Some(i + 1)
  }

  function RemoveAt(rows: seq<Row>, i: nat): seq<Row>
    requires i < |rows|
  {
    rows[..i] + rows[i + 1..]
  }

  /** What an update that has read a row makes of the row that it finds when it writes: the settings are those read,
      with the given ones replaced and the method list split and joined again; everything else stays. */
  function Written(current: Row, read: Row, req: UpdateRequest, now: int): Row {
    current.(
      name := if req.name.Some? then req.name.value else read.name,
      enabled := if req.enabled.Some? then req.enabled.value else read.enabled,
      rateLimit := if req.rateLimit.Some? then req.rateLimit.value else read.rateLimit,
      scope := if req.scope.Some? then req.scope.value else read.scope,
      methods := Join(if req.allowedMethods.Some? then req.allowedMethods.value else MethodsOf(read.methods), ','),
      expiresAt := if req.expiresAt.Some? then req.expiresAt else read.expiresAt,
      updatedAt := now)
  }

  /** The row after an update that nothing interferes with. */
  function Amended(r: Row, req: UpdateRequest, now: int): Row {
    Written(r, r, req, now)
  }

  // The table refines a map.

  lemma {:induction false} ViewKeys(rows: seq<Row>, h: string)
    ensures h in View(rows) <==> HasHash(rows, h)
  {
    if rows != [] {
      ViewKeys(rows[..|rows| - 1], h);
    }
  }

  /** Every row is found under its hash. */
  lemma {:induction false} ViewOfRow(rows: seq<Row>, i: nat)
    requires UniqueRows(rows) && i < |rows|
    ensures rows[i].hash in View(rows) && View(rows)[rows[i].hash] == InfoOf(rows[i])
  {
    if i < |rows| - 1 {
      ViewOfRow(rows[..|rows| - 1], i);
    }
  }

  lemma RemoveKeepsTable(rows: seq<Row>, i: nat, nextId: nat)
    requires TableOk(rows, nextId) && i < |rows|
    ensures TableOk(RemoveAt(rows, i), nextId)
  {
  }

  lemma RemoveUnderUpdate(m: map<string, TokenInfo>, from: string, k: string, w: TokenInfo)
    requires k != from
    ensures (m - {from})[k := w] == m[k := w] - {from}
  {
  }

  lemma ViewMore(rows: seq<Row>, r: Row)
    ensures View(rows + [r]) == View(rows)[r.hash := InfoOf(r)]
  {
    assert (rows + [r])[..|rows|] == rows;
  }

  lemma RemoveBeforeLast(rows: seq<Row>, i: nat)
    requires i < |rows| - 1
    ensures RemoveAt(rows, i) == RemoveAt(rows[..|rows| - 1], i) + [rows[|rows| - 1]]
  {
  }

  /** Deleting a row removes exactly its hash from the map. */
  lemma {:induction false} ViewOfDelete(rows: seq<Row>, i: nat)
    requires UniqueRows(rows) && i < |rows|
    ensures View(RemoveAt(rows, i)) == View(rows) - {rows[i].hash}
  {
    var n := |rows| - 1;
    var init, last := rows[..n], rows[n];
    if i == n {
      ViewKeys(init, last.hash);
      assert RemoveAt(rows, i) == init;
    } else {
      ViewOfDelete(init, i);
      RemoveBeforeLast(rows, i);
      ViewMore(RemoveAt(init, i), last);
      RemoveUnderUpdate(View(init), rows[i].hash, last.hash, InfoOf(last));
    }
  }

  lemma MoveUnderUpdate(m: map<string, TokenInfo>, from: string, to: string, v: TokenInfo, k: string, w: TokenInfo)
    requires k != from && k != to
    ensures (m - {from})[to := v][k := w] == (m[k := w] - {from})[to := v]
  {
  }

  lemma ReplaceBeforeLast(rows: seq<Row>, i: nat, r: Row)
    requires i < |rows| - 1 && UniqueRows(rows) && UniqueRows(rows[i := r])
    ensures var init, last := rows[..|rows| - 1], rows[|rows| - 1];
            && rows[i := r] == init[i := r] + [last]
            && UniqueRows(init) && UniqueRows(init[i := r])
            && last.hash != r.hash && last.hash != rows[i].hash
  {
    var n, rows' := |rows| - 1, rows[i := r];
    assert rows'[i] == r && rows'[n] == rows[n];
    assert rows[..n][i := r] == rows'[..n];
  }

  /** Replacing row i moves its key, and nothing else: the entry under the old hash becomes one under the new. */
  lemma {:induction false} ViewOfReplace(rows: seq<Row>, i: nat, r: Row)
    requires UniqueRows(rows) && i < |rows| && UniqueRows(rows[i := r])
    ensures View(rows[i := r]) == (View(rows) - {rows[i].hash})[r.hash := InfoOf(r)]
  {
    var n := |rows| - 1;
    var init, last := rows[..n], rows[n];
    if i == n {
      ViewKeys(init, last.hash);
      assert rows[i := r] == init + [r];
      ViewMore(init, r);
      assert View(init)[last.hash := InfoOf(last)] - {last.hash} == View(init);
    } else {
      ReplaceBeforeLast(rows, i, r);
      ViewOfReplace(init, i, r);
      ViewMore(init[i := r], last);
      MoveUnderUpdate(View(init), rows[i].hash, r.hash, InfoOf(r), last.hash, InfoOf(last));
    }
  }

  /** Rotation keeps the row's settings: the new hash means what the old one meant, the old one means nothing, and
      every other token keeps its meaning. */
  lemma RotateMovesOneKey(rows: seq<Row>, i: nat, hash: string, prefix: string, now: int, other: string)
    requires UniqueRows(rows) && i < |rows|
    requires forall j :: 0 <= j < |rows| && j != i ==> rows[j].hash != hash
    ensures var rows' := rows[i := rows[i].(hash := hash, prefix := prefix, updatedAt := now)];
            && UniqueRows(rows')
            && Get(View(rows'), hash) == Get(View(rows), rows[i].hash)
            && (rows[i].hash != hash ==> Get(View(rows'), rows[i].hash) == None)
            && (other != hash && other != rows[i].hash ==> Get(View(rows'), other) == Get(View(rows), other))
  {
    ViewOfRow(rows, i);
    ViewOfReplace(rows, i, rows[i].(hash := hash, prefix := prefix, updatedAt := now));
  }

  /** A list of allowed methods survives being stored exactly when no method contains a comma and it is not the
      list of one empty string. */
  lemma MethodsSurviveStorage(methods: seq<string>)
    ensures MethodsOf(Join(methods, ',')) == methods <==>
            (forall m :: m in methods ==> ',' !in m) && methods != [""]
  {
    SplitJoin(methods, ',');
    if |methods| > 1 {
      assert Join(methods, ',')[|methods[0]|] == ',';
    }
  }

  /** An update without a method list leaves the stored list alone, however it is written. */
  lemma AmendKeepsMethods(r: Row, req: UpdateRequest, now: int)
    requires req.allowedMethods.None?
    ensures Amended(r, req, now).methods == r.methods
  {
    JoinSplit(r.methods, ',');
  }

  /** An update that names nothing but the fields in `req` changes what a lookup sees in those fields only. */
  lemma AmendedInfo(r: Row, req: UpdateRequest, now: int)
    requires req.allowedMethods.Some? ==>
               (forall m :: m in req.allowedMethods.value ==> ',' !in m) && req.allowedMethods.value != [""]
    ensures var before, after := InfoOf(r), InfoOf(Amended(r, req, now));
            && after.name == (if req.name.Some? then req.name.value else before.name)
            && after.enabled == (if req.enabled.Some? then req.enabled.value else before.enabled)
            && after.rateLimit == (if req.rateLimit.Some? then req.rateLimit.value else before.rateLimit)
            && after.scope == (if req.scope.Some? then req.scope.value else before.scope)
            && after.allowedMethods ==
                 (if req.allowedMethods.Some? then req.allowedMethods.value else before.allowedMethods)
            && after.expiresAt == (if req.expiresAt.Some? then req.expiresAt else before.expiresAt)
    ensures Amended(r, req, now).hash == r.hash && Amended(r, req, now).id == r.id
  {
    if req.allowedMethods.Some? {
      MethodsSurviveStorage(req.allowedMethods.value);
    } else {
      AmendKeepsMethods(r, req, now);
    }
  }

  lemma ViewOfAmend(rows: seq<Row>, i: nat, req: UpdateRequest, now: int)
    requires UniqueRows(rows) && i < |rows|
    ensures var row := Amended(rows[i], req, now);
            UniqueRows(rows[i := row]) && View(rows[i := row]) == View(rows)[row.hash := InfoOf(row)]
  {
    var row := Amended(rows[i], req, now);
    ViewOfReplace(rows, i, row);
    ViewOfRow(rows, i);
    assert (View(rows) - {row.hash})[row.hash := InfoOf(row)] == View(rows)[row.hash := InfoOf(row)];
  }

  // Migration of the tokens in the configuration file.

  function ConfigRow(t: TokenConfig, id: nat, hash: string, now: int): Row {
    Row(id, hash, t.token[..if |t.token| < 8 then |t.token| else 8], t.name, t.enabled, t.rateLimit, "",
        Join(t.allowedMethods, ','), None, now, now)
  }

  /** The table and the next id after importing; `failed` when a statement did not run or an insert hit the uniqueness
      constraint on hashes. */
  datatype Migration = Migration(rows: seq<Row>, nextId: nat, imported: nat, failed: bool)

  /** The hash, the clock, and whether the statements for the k-th token run. */
  datatype Import = Import(hash: string -> string, now: int, countOk: nat -> bool, insertOk: nat -> bool)

  /** Importing the k-th token. */
  function MigrateOne(m: Migration, t: TokenConfig, k: nat, im: Import): Migration {
    if m.failed then m
    else if !im.countOk(k) then m.(failed := true)
    else if HasName(m.rows, t.name) then m
    else if !im.insertOk(k) || HasHash(m.rows, im.hash(t.token)) then m.(failed := true)
    else Migration(m.rows + [ConfigRow(t, m.nextId, im.hash(t.token), im.now)], m.nextId + 1, m.imported + 1, false)
  }

  function Migrate(rows: seq<Row>, nextId: nat, tokens: seq<TokenConfig>, im: Import): Migration {
    if tokens == [] then Migration(rows, nextId, 0, false)
    else
      var k := |tokens| - 1;
      MigrateOne(Migrate(rows, nextId, tokens[..k], im), tokens[k], k, im)
  }

  lemma MigrateNext(rows: seq<Row>, nextId: nat, tokens: seq<TokenConfig>, im: Import, k: nat)
    requires k < |tokens|
    ensures Migrate(rows, nextId, tokens[..k + 1], im) ==
            MigrateOne(Migrate(rows, nextId, tokens[..k], im), tokens[k], k, im)
  {
    assert tokens[..k + 1][..k] == tokens[..k];
  }

  lemma {:induction false} MigrateOnlyAdds(rows: seq<Row>, nextId: nat, tokens: seq<TokenConfig>, im: Import)
    requires TableOk(rows, nextId)
    ensures var m := Migrate(rows, nextId, tokens, im);
            && rows <= m.rows && |m.rows| == |rows| + m.imported
            && TableOk(m.rows, m.nextId)
  {
    if tokens != [] {
      MigrateOnlyAdds(rows, nextId, tokens[..|tokens| - 1], im);
    }
  }

  /** A migration that went through leaves every configured name in the table. */
  lemma {:induction false} MigrateImportsNames(rows: seq<Row>, nextId: nat, tokens: seq<TokenConfig>, im: Import)
    requires !Migrate(rows, nextId, tokens, im).failed
    ensures forall t :: t in tokens ==> HasName(Migrate(rows, nextId, tokens, im).rows, t.name)
  {
    if tokens != [] {
      var before, t := Migrate(rows, nextId, tokens[..|tokens| - 1], im), tokens[|tokens| - 1];
      MigrateImportsNames(rows, nextId, tokens[..|tokens| - 1], im);
      var after := Migrate(rows, nextId, tokens, im);
      assert before.rows <= after.rows;
      assert forall name :: HasName(before.rows, name) ==> HasName(after.rows, name);
      if !HasName(before.rows, t.name) {
        assert after.rows[|before.rows|].name == t.name;
      }
      assert forall u :: u in tokens ==> u in tokens[..|tokens| - 1] || u == t;
    }
  }

  lemma {:induction false} MigrateNothingNew(rows: seq<Row>, nextId: nat, tokens: seq<TokenConfig>, im: Import)
    requires forall t :: t in tokens ==> HasName(rows, t.name)
    ensures Migrate(rows, nextId, tokens, im) ==
            Migration(rows, nextId, 0, exists k :: 0 <= k < |tokens| && !im.countOk(k))
  {
    if tokens != [] {
      assert tokens[|tokens| - 1] in tokens;
      MigrateNothingNew(rows, nextId, tokens[..|tokens| - 1], im);
    }
  }

  /** An import that failed has imported what comes before some token and stopped there, because a statement for that
      token did not run or because its name is new and its hash is not. */
  lemma {:induction false} FailedMigrationStopsAt(rows: seq<Row>, nextId: nat, tokens: seq<TokenConfig>, im: Import)
      returns (k: nat)
    requires Migrate(rows, nextId, tokens, im).failed
    ensures k < |tokens| && !Migrate(rows, nextId, tokens[..k], im).failed
    ensures Migrate(rows, nextId, tokens, im) == Migrate(rows, nextId, tokens[..k], im).(failed := true)
    ensures var m := Migrate(rows, nextId, tokens[..k], im);
            || !im.countOk(k)
            || (!HasName(m.rows, tokens[k].name) && (!im.insertOk(k) || HasHash(m.rows, im.hash(tokens[k].token))))
  {
    k := |tokens| - 1;
    if Migrate(rows, nextId, tokens[..k], im).failed {
      var n := k;
      k := FailedMigrationStopsAt(rows, nextId, tokens[..n], im);
      assert tokens[..n][..k] == tokens[..k];
    }
  }

  lemma {:induction false} FailureSticks(rows: seq<Row>, nextId: nat, tokens: seq<TokenConfig>, im: Import, k: nat)
    requires k <= |tokens| && (k < |tokens| ==> Migrate(rows, nextId, tokens[..k], im).failed)
    ensures Migrate(rows, nextId, tokens, im) == Migrate(rows, nextId, tokens[..k], im)
  {
    if k == |tokens| {
      assert tokens[..k] == tokens;
    } else {
      assert tokens[..|tokens| - 1][..k] == tokens[..k];
      FailureSticks(rows, nextId, tokens[..|tokens| - 1], im, k);
    }
  }

  /** Importing the same configuration a second time imports nothing and changes nothing, and fails only when a query
      does. */
  lemma SecondMigrationImportsNothing(rows: seq<Row>, nextId: nat, tokens: seq<TokenConfig>, im: Import, again: Import)
    requires !Migrate(rows, nextId, tokens, im).failed
    ensures var m := Migrate(rows, nextId, tokens, im);
            Migrate(m.rows, m.nextId, tokens, again) ==
            Migration(m.rows, m.nextId, 0, exists k :: 0 <= k < |tokens| && !again.countOk(k))
  {
    var m := Migrate(rows, nextId, tokens, im);
    MigrateImportsNames(rows, nextId, tokens, im);
    MigrateNothingNew(m.rows, m.nextId, tokens, again);
  }

  class Store {
    var rows: seq<Row>
    var nextId: nat
    var cache: map<string, TokenInfo>
    var lastLoad: int
    const cacheTTL: int
    const hash: string -> string

    ghost predicate Valid()
      reads this
    {
      TableOk(rows, nextId)
    }

    /** The cache shows the table. */
    ghost predicate Coherent()
      reads this
    {
      cache == View(rows)
    }

    constructor (rows: seq<Row>, nextId: nat, cacheTTL: int, hash: string -> string, now: int)
      requires TableOk(rows, nextId)
      ensures Valid() && Coherent() && this.rows == rows && lastLoad == now
      ensures this.cacheTTL == cacheTTL && this.hash == hash
    {
      this.rows, this.nextId, this.cacheTTL, this.hash := rows, nextId, cacheTTL, hash;
      this.cache, this.lastLoad := map[], 0;
      new;
      var ok := LoadCache(true, now);
    }

    /** Rebuilds the cache row by row; after a failed query or scan everything stays as it was. */
    method LoadCache(queryOk: bool, now: int) returns (ok: bool)
      modifies this`cache, this`lastLoad
      ensures ok == queryOk
      ensures ok ==> cache == View(rows) && lastLoad == now
      ensures !ok ==> cache == old(cache) && lastLoad == old(lastLoad)
    {
      if !queryOk {
        return false;
      }
      var loaded: map<string, TokenInfo> := map[];
      var i := 0;
      while i < |rows|
        invariant 0 <= i <= |rows| && loaded == View(rows[..i])
        invariant cache == old(cache) && lastLoad == old(lastLoad)
      {
        assert rows[..i + 1][..i] == rows[..i];
        loaded := loaded[rows[i].hash := InfoOf(rows[i])];
        i := i + 1;
      }
      assert rows[..i] == rows;
      cache, lastLoad := loaded, now;
      return true;
    }

    /** A cache older than the TTL is reloaded first; if that fails the old cache answers. */
    method Lookup(token: string, env: Env) returns (info: Option<TokenInfo>)
      requires Valid()
      modifies this`cache, this`lastLoad
      ensures Valid()
      ensures info == Get(cache, hash(token))
      ensures env.now - old(lastLoad) > cacheTTL && env.reloadOk ==> Coherent() && lastLoad == env.loadedAt
      ensures !(env.now - old(lastLoad) > cacheTTL && env.reloadOk) ==> cache == old(cache) && lastLoad == old(lastLoad)
      ensures old(Coherent()) ==> info == Get(View(rows), hash(token))
    {
      info := Get(cache, hash(token));
      if env.now - lastLoad > cacheTTL {
        var _ := LoadCache(env.reloadOk, env.loadedAt);
        info := Get(cache, hash(token));
      }
    }

    /** `generated` is the fresh random token, None when the system has no randomness. */
    method Create(req: CreateRequest, generated: Option<string>, env: Env) returns (r: Result<Issued, StoreError>)
      requires Valid() && (generated.Some? ==> |generated.value| == 40)
      modifies this
      ensures Valid()
      ensures r.Failure? <==> generated.None? || !env.writeOk || HasHash(old(rows), hash(generated.value))
      ensures r.Failure? ==> rows == old(rows) && cache == old(cache) && nextId == old(nextId)
      ensures r.Success? ==>
                && |rows| == |old(rows)| + 1 && old(rows) <= rows
                && View(rows) == old(View(rows))[hash(r.value.plaintext) := TokenInfo(
                     req.name,
                     if req.enabled.Some? then req.enabled.value else true,
                     req.rateLimit,
                     if req.scope == "" then "write" else req.scope,
                     MethodsOf(Join(req.allowedMethods, ',')),
                     req.expiresAt)]
                && r.value.plaintext == generated.value && r.value.token.id == old(nextId)
                && r.value.token.prefix == generated.value[..8]
      ensures r.Success? && env.reloadOk ==> Coherent()
      ensures r.Success? && !env.reloadOk ==> cache == old(cache)
    {
      if generated.None? {
        return Failure(NoRandomness);
      }
      var plaintext := generated.value;
      var enabled := if req.enabled.Some? then req.enabled.value else true;
      var scope := if req.scope == "" then "write" else req.scope;
      if !env.writeOk || HasHash(rows, hash(plaintext)) {
        return Failure(WriteFailed);
      }
      var row := Row(nextId, hash(plaintext), plaintext[..8], req.name, enabled, req.rateLimit, scope,
                     Join(req.allowedMethods, ','), req.expiresAt, env.now, env.now);
      rows := rows + [row];
      nextId := nextId + 1;
      var _ := LoadCache(env.reloadOk, env.loadedAt);
      return Success(Issued(TokenOf(row).(allowedMethods := req.allowedMethods), plaintext));
    }

    /** None for an unknown id, which is not an error. */
    method Update(id: nat, req: UpdateRequest, env: Env) returns (r: Result<Option<Token>, StoreError>)
      requires Valid()
      modifies this
      ensures Valid() && nextId == old(nextId)
      ensures var found := IndexOf(old(rows), id);
              && (r == Failure(ReadFailed) <==> !env.readOk)
              && (r == Success(None) <==> env.readOk && found.None?)
              && (r.Failure? && r.error != ReadFailed <==> env.readOk && found.Some? && !env.writeOk)
      ensures r.Failure? || r.value.None? ==> rows == old(rows) && cache == old(cache)
      ensures r.Success? && r.value.Some? ==>
                var i := IndexOf(old(rows), id).value;
                var row := Amended(old(rows)[i], req, env.now);
                && rows == old(rows)[i := row]
                && View(rows) == old(View(rows))[row.hash := InfoOf(row)]
                && (if env.reloadOk then Coherent() else cache == old(cache))
    {
      if !env.readOk {
        return Failure(ReadFailed);
      }
      var found := IndexOf(rows, id);
      if found.None? {
        return Success(None);
      }
      if !env.writeOk {
        return Failure(WriteFailed);
      }
      var row := Amended(rows[found.value], req, env.now);
      ViewOfAmend(rows, found.value, req, env.now);
      rows := rows[found.value := row];
      var _ := LoadCache(env.reloadOk, env.loadedAt);
      var shown := if req.allowedMethods.Some? then req.allowedMethods.value else MethodsOf(row.methods);
      return Success(Some(TokenOf(row).(allowedMethods := shown)));
    }

    method Delete(id: nat, env: Env) returns (r: Result<(), StoreError>)
      requires Valid()
      modifies this
      ensures Valid() && nextId == old(nextId)
      ensures r == (if !env.writeOk then Failure(WriteFailed)
                    else if IndexOf(old(rows), id).None? then Failure(NotFound)
                    else Success(()))
      ensures r.Failure? ==> rows == old(rows) && cache == old(cache)
      ensures r.Success? ==>
                var i := IndexOf(old(rows), id).value;
                && rows == RemoveAt(old(rows), i)
                && View(rows) == old(View(rows)) - {old(rows)[i].hash}
                && (if env.reloadOk then Coherent() else cache == old(cache))
    {
      if !env.writeOk {
        return Failure(WriteFailed);
      }
      var found := IndexOf(rows, id);
      if found.None? {
        return Failure(NotFound);
      }
      ViewOfDelete(rows, found.value);
      RemoveKeepsTable(rows, found.value, nextId);
      rows := RemoveAt(rows, found.value);
      var _ := LoadCache(env.reloadOk, env.loadedAt);
      return Success(());
    }

    method Rotate(id: nat, generated: Option<string>, env: Env) returns (r: Result<Issued, StoreError>)
      requires Valid() && (generated.Some? ==> |generated.value| == 40)
      modifies this
      ensures Valid() && nextId == old(nextId)
      ensures r.Failure? ==> rows == old(rows) && cache == old(cache)
      ensures r.Success? <==>
                var found := IndexOf(old(rows), id);
                && env.readOk && found.Some? && generated.Some? && env.writeOk
                && forall j :: 0 <= j < |old(rows)| && j != found.value ==> old(rows)[j].hash != hash(generated.value)
      ensures r.Success? ==>
                var i := IndexOf(old(rows), id).value;
                var before, newHash := old(rows)[i].hash, hash(r.value.plaintext);
                && r.value.plaintext == generated.value
                && rows == old(rows)[i := old(rows)[i].(hash := newHash, prefix := generated.value[..8],
                                                        updatedAt := env.now)]
                && View(rows) == (old(View(rows)) - {before})[newHash := InfoOf(old(rows)[i])]
                && (if env.reloadOk then Coherent() else cache == old(cache))
    {
      if !env.readOk {
        return Failure(ReadFailed);
      }
      var found := IndexOf(rows, id);
      if found.None? {
        return Failure(NotFound);
      }
      if generated.None? {
        return Failure(NoRandomness);
      }
      var i, newHash := found.value, hash(generated.value);
      if !env.writeOk || exists j :: 0 <= j < |rows| && j != i && rows[j].hash == newHash {
        return Failure(WriteFailed);
      }
      var row := rows[i].(hash := newHash, prefix := generated.value[..8], updatedAt := env.now);
      ViewOfReplace(rows, i, row);
      rows := rows[i := row];
      var _ := LoadCache(env.reloadOk, env.loadedAt);
      return Success(Issued(TokenOf(row), generated.value));
    }

    /** Imports configured tokens whose name is new. `countOk(k)` and `insertOk(k)` say whether the k-th token's
        statements run; an error stops the import at once, and without a reload. */
    method MigrateConfigTokens(tokens: seq<TokenConfig>, countOk: nat -> bool, insertOk: nat -> bool, env: Env)
        returns (imported: nat, failed: bool)
      requires Valid()
      modifies this
      ensures Valid() && |rows| == |old(rows)| + imported && old(rows) <= rows
      ensures Migration(rows, nextId, imported, failed) ==
              Migrate(old(rows), old(nextId), tokens, Import(hash, env.now, countOk, insertOk))
      ensures !failed && imported > 0 && env.reloadOk ==> Coherent()
      ensures failed || imported == 0 || !env.reloadOk ==> cache == old(cache)
    {
      ghost var im := Import(hash, env.now, countOk, insertOk);
      ghost var m := Migration(rows, nextId, 0, false);
      imported, failed := 0, false;
      var k := 0;
      while k < |tokens| && !failed
        invariant 0 <= k <= |tokens| && cache == old(cache) && (failed ==> k < |tokens|)
        invariant m == Migration(rows, nextId, imported, failed)
        invariant m == Migrate(old(rows), old(nextId), tokens[..if failed then k + 1 else k], im)
        decreases |tokens| - k, if failed then 0 else 1
      {
        var t := tokens[k];
        MigrateNext(old(rows), old(nextId), tokens, im, k);
        m := MigrateOne(m, t, k, im);
        if !countOk(k) {
          failed := true;
        } else if !HasName(rows, t.name) {
          if !insertOk(k) || HasHash(rows, hash(t.token)) {
            failed := true;
          } else {
            rows := rows + [ConfigRow(t, nextId, hash(t.token), env.now)];
            nextId := nextId + 1;
            imported := imported + 1;
            k := k + 1;
          }
        } else {
          k := k + 1;
        }
      }
      MigrateOnlyAdds(old(rows), old(nextId), tokens, im);
      FailureSticks(old(rows), old(nextId), tokens, im, if failed then k + 1 else k);
      if !failed && imported > 0 {
        var _ := LoadCache(env.reloadOk, env.loadedAt);
      }
    }
  }
}
