/** Promotion of job outputs into the model registry, deletion, and the storage quota they share
    (worker/artifacts.py, api/routers/models.py:156-173, api/storage.py:23-30). Promotions and
    deletions of the registry run one after another; a promotion may fail at any point after it
    has consumed quota. */
module ModelRegistry {
  import opened Common
  import opened ObjectStore
  import Quota = QuotaCounters

  type UserId = Quota.UserId

  datatype Row = Row(user: UserId, name: string, version: nat, size: nat) {
    function Prefix(): string { ModelPrefix(user, name, version) }
    predicate SameModel(r: Row) { user == r.user && name == r.name && version == r.version }
    /** The other model's prefix lies under this one's. */
    predicate Encloses(r: Row) { user == r.user && Nested(name, version, r.name) }
    predicate Clashes(r: Row) { Encloses(r) || r.Encloses(this) }
  }

  datatype File = File(relative: string, data: Bytes)

  const MEGABYTE: nat := 1024 * 1024

  function Ceiling(a: nat, b: nat): nat
    requires b > 0
  {
    (a + b - 1) / b
  }

  function StorageMb(size: nat): nat {
    if size == 0 then 0 else if Ceiling(size, MEGABYTE) < 1 then 1 else Ceiling(size, MEGABYTE)
  }

  lemma ChargeCoversSize(size: nat)
    ensures size <= StorageMb(size) * MEGABYTE < size + MEGABYTE
    ensures StorageMb(size) == 0 <==> size == 0
  {
  }

  function TotalSize(files: seq<File>): nat {
    if files == [] then 0 else TotalSize(files[..|files| - 1]) + |files[|files| - 1].data|
  }

  function AsMap(files: seq<File>): map<string, Bytes> {
    if files == [] then map[] else AsMap(files[..|files| - 1])[files[|files| - 1].relative := files[|files| - 1].data]
  }

  lemma TotalSizeOfOne(file: File)
    ensures TotalSize([file]) == |file.data|
  {
    assert [file][..0] == [];
  }

  /** The size of a directory is the sum over its files. */
  lemma {:induction false} TotalSizeAdds(a: seq<File>, b: seq<File>)
    ensures TotalSize(a + b) == TotalSize(a) + TotalSize(b)
  {
    if b == [] {
      assert a + b == a;
    } else {
      var last := |b| - 1;
      TotalSizeAdds(a, b[..last]);
      assert (a + b)[..|a + b| - 1] == a + b[..last];
    }
  }

  /** No two files of a directory have the same relative name. */
  ghost predicate DistinctNames(files: seq<File>) {
    forall i, j | 0 <= i < j < |files| :: files[i].relative != files[j].relative
  }

  /** Under distinct names the files are found by name, and their sizes are what they sum to. */
  lemma {:induction false} AsMapHoldsTheFiles(files: seq<File>)
    requires DistinctNames(files)
    ensures forall f | f in files :: f.relative in AsMap(files) && AsMap(files)[f.relative] == f.data
    ensures forall n | n in AsMap(files) :: exists f | f in files :: f.relative == n
    ensures SumSizes(AsMap(files)) == TotalSize(files)
  {
    hide SumSizes, AsMap, TotalSize;
    if files == [] {
      AsMapOfNothing();
    } else {
      var last := files[|files| - 1];
      var init := files[..|files| - 1];
      AsMapHoldsTheFiles(init);
      AsMapOfOneMore(init, last);
      assert files == init + [last];
      assert last.relative !in AsMap(init);
      SumWithOneMore(AsMap(init), last.relative, last.data);
      TotalSizeAdds(init, [last]);
      TotalSizeOfOne(last);
    }
  }

  lemma AsMapOfNothing()
    ensures AsMap([]) == map[] && SumSizes(map[]) == 0 == TotalSize([])
  {
  }

  lemma AsMapOfOneMore(files: seq<File>, file: File)
    ensures AsMap(files + [file]) == AsMap(files)[file.relative := file.data]
  {
    assert (files + [file])[..|files|] == files;
  }

  /** The greatest version of a name among the live rows, zero when there is none. */
  function MaxVersion(rows: seq<Row>, user: UserId, name: string): (v: nat)
    ensures forall r | r in rows && r.user == user && r.name == name :: r.version <= v
    ensures v == 0 || exists r | r in rows :: r.user == user && r.name == name && r.version == v
  {
    if rows == [] then 0
    else
      var rest := MaxVersion(rows[..|rows| - 1], user, name);
      var r := rows[|rows| - 1];
      if r.user == user && r.name == name && r.version > rest then r.version else rest
  }

  datatype State = State(
    rows: seq<Row>,
    objects: Objects,
    counters: Quota.Counters,
    now: int,
    abandoned: map<UserId, nat>,   // history: MB consumed by promotions that then failed
    expired: set<UserId>)          // history: users whose storage counter has vanished

  datatype Op =
    | Promote(user: UserId, name: string, files: seq<File>, userFound: bool, limit: int, uploaded: nat, committed: bool)
    | Delete(caller: UserId, index: nat)
    | Vanish(user: UserId)
    | Wait(seconds: nat)

  function Init(now: int): State { State([], map[], map[], now, map[], {}) }

  function StorageKey(u: UserId): Quota.Key { Quota.AbsoluteKey(u, Quota.StorageMb) }

  function Used(s: State, u: UserId): int { Quota.Read(s.counters, StorageKey(u)) }

  function Abandoned(s: State, u: UserId): nat { if u in s.abandoned then s.abandoned[u] else 0 }

  predicate Enabled(s: State, op: Op) {
    match op
    case Promote(_, _, files, _, _, uploaded, committed) => uploaded <= |files| && (committed ==> uploaded == |files|)
    case Delete(_, index) => index < |s.rows|
    case Vanish(u) =>
      && StorageKey(u) in s.counters
      && s.counters[StorageKey(u)].expiresAt.Some?
      && s.now >= s.counters[StorageKey(u)].expiresAt.value
    case Wait(_) => true
  }

  /** Whether a promotion gets past the quota. */
  predicate Charged(s: State, op: Op)
    requires op.Promote?
  {
    op.files != [] && op.userFound && Quota.Judge(Used(s, op.user), StorageMb(TotalSize(op.files)), op.limit).Granted?
  }

  function NewRow(s: State, op: Op): Row
    requires op.Promote?
  {
    Row(op.user, op.name, MaxVersion(s.rows, op.user, op.name) + 1, TotalSize(op.files))
  }

  function Apply(ttl: int, s: State, op: Op): State
    requires Enabled(s, op)
  {
    match op
    case Promote(user, name, files, userFound, limit, uploaded, committed) =>
      if !Charged(s, op) then s
      else
        var row, mb := NewRow(s, op), StorageMb(TotalSize(files));
        s.(counters := Quota.Consume(s.counters, StorageKey(user), mb, false, s.now, ttl),
           objects := Upload(s.objects, row.Prefix(), AsMap(files[..uploaded])),
           rows := if committed then s.rows + [row] else s.rows,
           abandoned := if committed then s.abandoned else s.abandoned[user := Abandoned(s, user) + mb])
    case Delete(caller, index) =>
      var row := s.rows[index];
      var mb := StorageMb(row.size);
      s.(objects := Without(s.objects, row.Prefix()),
         counters := if mb > 0 then Quota.Give(s.counters, StorageKey(caller), mb) else s.counters,
         rows := s.rows[..index] + s.rows[index + 1..])
    case Vanish(u) => s.(counters := s.counters - {StorageKey(u)}, expired := s.expired + {u})
    case Wait(seconds) => s.(now := s.now + seconds)
  }

  lemma PromotionCases(ttl: int, s: State, op: Op)
    requires op.Promote? && Enabled(s, op)
    ensures !Charged(s, op) ==> Apply(ttl, s, op) == s
    ensures Charged(s, op) ==>
      var row, mb := NewRow(s, op), StorageMb(TotalSize(op.files));
      Apply(ttl, s, op) == State(
        if op.committed then s.rows + [row] else s.rows,
        Upload(s.objects, row.Prefix(), AsMap(op.files[..op.uploaded])),
        Quota.Consume(s.counters, StorageKey(op.user), mb, false, s.now, ttl),
        s.now,
        if op.committed then s.abandoned else s.abandoned[op.user := Abandoned(s, op.user) + mb],
        s.expired)
  {
    hide StorageMb, Upload, Without, MaxVersion, TotalSize, AsMap, Row.Prefix, Quota.Consume, Quota.Give, Quota.Judge, Quota.Read;
  }

  /** When a promotion goes through, and that it otherwise changes nothing. */
  lemma PromotionGoesThroughIff(ttl: int, s: State, op: Op)
    requires op.Promote? && Enabled(s, op)
    ensures Charged(s, op) <==> op.userFound && TotalSize(op.files) > 0 && Used(s, op.user) + StorageMb(TotalSize(op.files)) <= op.limit
    ensures !Charged(s, op) ==> Apply(ttl, s, op) == s
  {
    ChargeCoversSize(TotalSize(op.files));
    hide StorageMb, Upload;
  }

  ghost predicate Run(ttl: int, states: seq<State>, ops: seq<Op>) {
    && |states| == |ops| + 1
    && states[0] == Init(states[0].now)
    && forall i | 0 <= i < |ops| :: Enabled(states[i], ops[i]) && states[i + 1] == Apply(ttl, states[i], ops[i])
  }

  // ------------------------------------------------------------------ accounting

  /** MB charged for a user's live models. */
  function Charges(rows: seq<Row>, u: UserId): nat {
    if rows == [] then 0
    else Charges(rows[..|rows| - 1], u) + if rows[|rows| - 1].user == u then StorageMb(rows[|rows| - 1].size) else 0
  }

  function StoredBytes(rows: seq<Row>, u: UserId): nat {
    if rows == [] then 0
    else StoredBytes(rows[..|rows| - 1], u) + if rows[|rows| - 1].user == u then rows[|rows| - 1].size else 0
  }

  lemma {:induction false} BytesWithinCharges(rows: seq<Row>, u: UserId)
    ensures StoredBytes(rows, u) <= Charges(rows, u) * MEGABYTE
  {
    if rows != [] {
      BytesWithinCharges(rows[..|rows| - 1], u);
      ChargeCoversSize(rows[|rows| - 1].size);
    }
  }

  lemma {:induction false} ChargesAfterRemoval(rows: seq<Row>, i: nat, u: UserId)
    requires i < |rows|
    ensures Charges(rows[..i] + rows[i + 1..], u) == Charges(rows, u) - (if rows[i].user == u then StorageMb(rows[i].size) else 0)
  {
    hide StorageMb, Charges;
    var last := |rows| - 1;
    var init := rows[..last];
    assert rows == init + [rows[last]];
    ChargesOfOneMore(init, rows[last], u);
    if i == last {
      assert rows[..i] + rows[i + 1..] == init;
    } else {
      ChargesAfterRemoval(init, i, u);
      ChargesOfOneMore(init[..i] + init[i + 1..], rows[last], u);
      assert rows[..i] + rows[i + 1..] == (init[..i] + init[i + 1..]) + [rows[last]];
    }
  }

  lemma ChargesOfOneMore(rows: seq<Row>, r: Row, u: UserId)
    ensures Charges(rows + [r], u) == Charges(rows, u) + if r.user == u then StorageMb(r.size) else 0
  {
    hide StorageMb;
    assert (rows + [r])[..|rows|] == rows;
  }

  /** Until a user's counter vanishes it is exactly the MB of the user's models and failed
      promotions; afterwards it is at most that. */
  predicate AccountedFor(s: State, u: UserId, limit: int) {
    && 0 <= Used(s, u) <= Charges(s.rows, u) + Abandoned(s, u)
    && (u !in s.expired ==> Used(s, u) == Charges(s.rows, u) + Abandoned(s, u) && Used(s, u) <= limit)
  }

  ghost predicate Accounted(s: State, limit: int) {
    forall u :: AccountedFor(s, u, limit)
  }

  /** The caller owns what it deletes, and promotions read a limit of at most `limit`. */
  predicate Orderly(s: State, op: Op, limit: int) {
    match op
    case Promote(_, _, _, _, l, _, _) => l <= limit
    case Delete(caller, index) => index < |s.rows| ==> caller == s.rows[index].user
    case _ => true
  }

  /** A promotion that is charged adds its MB to what the user has used, and to what the user's
      models or failed promotions account for. */
  lemma PromotionAdds(ttl: int, s: State, op: Op, u: UserId)
    requires Enabled(s, op) && op.Promote? && Charged(s, op)
    ensures var t, mb := Apply(ttl, s, op), StorageMb(TotalSize(op.files));
      && t.expired == s.expired && mb >= 1 && Used(s, op.user) + mb <= op.limit
      && Used(t, u) == Used(s, u) + (if u == op.user then mb else 0)
      && Charges(t.rows, u) + Abandoned(t, u) == Charges(s.rows, u) + Abandoned(s, u) + (if u == op.user then mb else 0)
  {
    hide StorageMb, Upload, MaxVersion, Charges;
    ChargesOfOneMore(s.rows, NewRow(s, op), u);
  }

  /** A deletion takes the row's MB off its owner's charges and off the caller's counter, which
      stops at zero. */
  lemma DeletionSubtracts(ttl: int, s: State, op: Op, u: UserId)
    requires Enabled(s, op) && op.Delete? && Used(s, op.caller) >= 0
    ensures var t, row := Apply(ttl, s, op), s.rows[op.index];
      var mb := StorageMb(row.size);
      && Used(t, u) == (if u != op.caller then Used(s, u) else if Used(s, u) >= mb then Used(s, u) - mb else 0)
      && Charges(t.rows, u) == Charges(s.rows, u) - (if u == row.user then mb else 0)
      && Abandoned(t, u) == Abandoned(s, u) && t.expired == s.expired
      && (u == row.user && Used(s, u) == Charges(s.rows, u) + Abandoned(s, u) ==> Used(s, u) >= mb)
  {
    hide StorageMb, Without;
    ChargesAfterRemoval(s.rows, op.index, u);
  }

  lemma StepKeepsAccounted(ttl: int, s: State, op: Op, limit: int)
    requires Enabled(s, op) && Accounted(s, limit) && Orderly(s, op, limit)
    ensures Accounted(Apply(ttl, s, op), limit)
  {
    var t := Apply(ttl, s, op);
    match op
    case Promote(_, _, _, _, _, _, _) =>
      if Charged(s, op) {
        hide Apply, Used, Charges, Abandoned, StorageMb, Charged;
        forall u ensures AccountedFor(t, u, limit) {
          PromotionAdds(ttl, s, op, u);
          assert AccountedFor(s, u, limit);
        }
      }
    case Delete(_, _) =>
      forall u ensures AccountedFor(t, u, limit) {
        hide Apply, Used, Charges, Abandoned, StorageMb;
        assert AccountedFor(s, u, limit) && AccountedFor(s, op.caller, limit);
        DeletionSubtracts(ttl, s, op, u);
      }
    case Vanish(v) =>
      forall u ensures AccountedFor(t, u, limit) {
        assert AccountedFor(s, u, limit);
      }
    case Wait(_) =>
      forall u ensures AccountedFor(t, u, limit) {
        assert AccountedFor(s, u, limit);
      }
  }

  ghost predicate OrderlyRun(ttl: int, states: seq<State>, ops: seq<Op>, limit: int) {
    Run(ttl, states, ops) && forall i | 0 <= i < |ops| :: Orderly(states[i], ops[i], limit)
  }

  lemma InitIsAccounted(now: int, limit: int)
    requires limit >= 0
    ensures Accounted(Init(now), limit)
  {
  }

  /** Over any run of promotions, failing or not, and deletions by owners, a user's counter is
      the exact charge for what is stored or was abandoned until the key expires, and never more
      than it afterwards; until it expires the stored bytes stay within the quota, and deleting
      never drives the counter below zero. */
  lemma {:induction false} StorageIsAccounted(ttl: int, states: seq<State>, ops: seq<Op>, limit: int, n: nat, u: UserId)
    requires limit >= 0 && OrderlyRun(ttl, states, ops, limit) && n < |states|
    ensures Accounted(states[n], limit)
    ensures u !in states[n].expired ==> StoredBytes(states[n].rows, u) <= limit * MEGABYTE
    ensures n < |ops| && ops[n].Delete? && ops[n].caller == u && u !in states[n].expired ==>
      Used(states[n], u) >= StorageMb(states[n].rows[ops[n].index].size)
  {
    hide Apply, Enabled;
    if n > 0 {
      StorageIsAccounted(ttl, states, ops, limit, n - 1, u);
      hide AccountedFor, Orderly;
      StepKeepsAccounted(ttl, states[n - 1], ops[n - 1], limit);
    } else {
      InitIsAccounted(states[0].now, limit);
    }
    var s := states[n];
    assert AccountedFor(s, u, limit);
    BytesWithinCharges(s.rows, u);
    if n < |ops| && ops[n].Delete? && ops[n].caller == u {
      DeletionIsEnabled(s, ops[n]);
      ChargesAfterRemoval(s.rows, ops[n].index, u);
    }
    QuotaCoversBytes(s, u, limit);
  }

  lemma DeletionIsEnabled(s: State, op: Op)
    requires Enabled(s, op) && op.Delete?
    ensures op.index < |s.rows|
  {
  }

  lemma QuotaCoversBytes(s: State, u: UserId, limit: int)
    requires AccountedFor(s, u, limit) && StoredBytes(s.rows, u) <= Charges(s.rows, u) * MEGABYTE
    ensures u !in s.expired ==> StoredBytes(s.rows, u) <= limit * MEGABYTE
  {
  }

  /** A deletion keeps the owner's account exact exactly when the caller is the owner or the
      model was empty: an administrator deleting a user's model leaves the user charged. */
  lemma DeletionIsExactIff(ttl: int, s: State, op: Op, limit: int)
    requires Enabled(s, op) && op.Delete? && Accounted(s, limit)
    requires s.rows[op.index].user !in s.expired
    ensures var t, owner, mb := Apply(ttl, s, op), s.rows[op.index].user, StorageMb(s.rows[op.index].size);
      && (Used(t, owner) == Charges(t.rows, owner) + Abandoned(t, owner) <==> op.caller == owner || mb == 0)
      && (op.caller != owner ==> Used(t, owner) == Charges(t.rows, owner) + Abandoned(t, owner) + mb)
  {
    var owner := s.rows[op.index].user;
    assert AccountedFor(s, owner, limit) && AccountedFor(s, op.caller, limit);
    DeletionSubtracts(ttl, s, op, owner);
  }

  /** The files of a list are stored under the prefix, and no other name is new there. */
  lemma FilesAreStored(objects: Objects, prefix: string, files: seq<File>)
    requires DistinctNames(files) && forall f | f in files :: Listed(f.relative)
    ensures var t := Upload(objects, prefix, AsMap(files));
      && (forall f | f in files :: prefix + f.relative in t && t[prefix + f.relative] == f.data)
      && (forall n :: n in Names(t, prefix) <==> n in Names(objects, prefix) || exists f | f in files :: f.relative == n)
  {
    hide Upload, Names, Listed, AsMap;
    AsMapHoldsTheFiles(files);
    UploadedKeys(objects, prefix, AsMap(files));
    NamesAfterUpload(objects, prefix, AsMap(files));
  }

  /** A promotion that fails after the quota leaves its charge and the files it had uploaded. */
  lemma FailedPromotionLeaves(ttl: int, s: State, op: Op)
    requires Enabled(s, op) && op.Promote? && Charged(s, op) && !op.committed && DistinctNames(op.files)
    requires forall f | f in op.files :: Listed(f.relative)
    ensures var t, prefix, mb, done := Apply(ttl, s, op), NewRow(s, op).Prefix(), StorageMb(TotalSize(op.files)), op.files[..op.uploaded];
      && t.rows == s.rows && Used(t, op.user) == Used(s, op.user) + mb
      && Abandoned(t, op.user) == Abandoned(s, op.user) + mb
      && (forall f | f in done :: prefix + f.relative in t.objects && t.objects[prefix + f.relative] == f.data)
      && (forall n :: n in Names(t.objects, prefix) <==> n in Names(s.objects, prefix) || exists f | f in done :: f.relative == n)
  {
    hide Apply, Charged, NewRow, StorageMb, Upload, Names, Listed, AsMap, MaxVersion, Row.Prefix, TotalSize, Used, Charges;
    PromotionCases(ttl, s, op);
    PromotionAdds(ttl, s, op, op.user);
    FilesAreStored(s.objects, NewRow(s, op).Prefix(), op.files[..op.uploaded]);
  }

  /** Once the counter has vanished a promotion that fits the quota by itself is charged, however
      much the user already stores. */
  lemma ExpiryForgetsWhatIsStored(ttl: int, s: State, op: Op)
    requires op.Promote? && Enabled(s, Vanish(op.user)) && op.files != [] && op.userFound
    ensures Charged(Apply(ttl, s, Vanish(op.user)), op) <==> 1 <= StorageMb(TotalSize(op.files)) <= op.limit
  {
  }

  /** A vanishing counter leaves the account exact exactly when there was nothing to count. */
  lemma VanishIsExactIff(ttl: int, s: State, u: UserId, limit: int)
    requires Enabled(s, Vanish(u)) && Accounted(s, limit) && u !in s.expired
    ensures var t := Apply(ttl, s, Vanish(u));
      Used(t, u) == Charges(t.rows, u) + Abandoned(t, u) <==> Charges(s.rows, u) + Abandoned(s, u) == 0
  {
    assert AccountedFor(s, u, limit);
  }

  function Vanishes(ops: seq<Op>, u: UserId): nat {
    if ops == [] then 0 else Vanishes(ops[..|ops| - 1], u) + if ops[|ops| - 1] == Vanish(u) then 1 else 0
  }

  /** MB a user stores or abandoned beyond what the counter remembers. */
  function Forgotten(s: State, u: UserId): int {
    Charges(s.rows, u) + Abandoned(s, u) - Used(s, u)
  }

  lemma StepForgets(ttl: int, s: State, op: Op, limit: int, u: UserId)
    requires limit >= 0 && Enabled(s, op) && Accounted(s, limit) && Orderly(s, op, limit) && Used(s, u) <= limit
    ensures Used(Apply(ttl, s, op), u) <= limit
    ensures Forgotten(Apply(ttl, s, op), u) <= Forgotten(s, u) + (if op == Vanish(u) then Used(s, u) else 0)
  {
    match op
    case Promote(_, _, _, _, _, _, _) =>
      if Charged(s, op) {
        hide Apply, Used, Charges, Abandoned, StorageMb, Charged;
        PromotionAdds(ttl, s, op, u);
      }
    case Delete(_, _) =>
      hide Apply, Used, Charges, Abandoned, StorageMb;
      assert AccountedFor(s, op.caller, limit) && AccountedFor(s, u, limit);
      DeletionSubtracts(ttl, s, op, u);
    case _ =>
  }

  /** Whatever expires: a user's counter never exceeds the limit, and what is stored never
      exceeds the limit times one more than the number of times the counter has vanished. */
  lemma {:induction false} StorageBoundAcrossExpiries(ttl: int, states: seq<State>, ops: seq<Op>, limit: int, n: nat, u: UserId)
    requires limit >= 0 && OrderlyRun(ttl, states, ops, limit) && n < |states|
    ensures Used(states[n], u) <= limit && Forgotten(states[n], u) <= limit * Vanishes(ops[..n], u)
    ensures StoredBytes(states[n].rows, u) <= limit * (Vanishes(ops[..n], u) + 1) * MEGABYTE
  {
    hide Apply, Enabled, Orderly, Accounted, StoredBytes, Charges, Abandoned, Used;
    var vanishes := Vanishes(ops[..n], u);
    if n > 0 {
      StorageBoundAcrossExpiries(ttl, states, ops, limit, n - 1, u);
      StorageIsAccounted(ttl, states, ops, limit, n - 1, u);
      StepForgets(ttl, states[n - 1], ops[n - 1], limit, u);
      OneMoreVanish(ops, n, u);
      OneMoreTime(limit, Vanishes(ops[..n - 1], u));
    } else {
      NothingStoredYet(states[0].now, u);
    }
    BytesWithinCharges(states[n].rows, u);
    OneMoreTime(limit, vanishes);
    TimesMegabyte(Charges(states[n].rows, u), limit * (vanishes + 1));
  }

  lemma OneMoreVanish(ops: seq<Op>, n: nat, u: UserId)
    requires 0 < n <= |ops|
    ensures Vanishes(ops[..n], u) == Vanishes(ops[..n - 1], u) + if ops[n - 1] == Vanish(u) then 1 else 0
  {
    assert ops[..n][..n - 1] == ops[..n - 1];
  }

  lemma NothingStoredYet(now: int, u: UserId)
    ensures Used(Init(now), u) == 0 && Forgotten(Init(now), u) == 0
  {
  }

  lemma OneMoreTime(limit: int, times: nat)
    ensures limit * (times + 1) == limit * times + limit
  {
  }

  lemma TimesMegabyte(x: int, y: int)
    requires x <= y
    ensures x * MEGABYTE <= y * MEGABYTE
  {
  }

  // ------------------------------------------------------------------ versions and prefixes

  ghost predicate Distinct(rows: seq<Row>) {
    forall i, j | 0 <= i < j < |rows| :: !rows[i].SameModel(rows[j])
  }

  /** Each new version is fresh among the live rows of its name. */
  lemma NewVersionIsFresh(s: State, op: Op)
    requires op.Promote?
    ensures forall r | r in s.rows :: !r.SameModel(NewRow(s, op))
    ensures NewRow(s, op).version >= 1
    ensures forall r | r in s.rows && r.user == op.user && r.name == op.name :: r.version < NewRow(s, op).version
    ensures NewRow(s, op).version > 1 ==> exists r | r in s.rows ::
        r.user == op.user && r.name == op.name && r.version == NewRow(s, op).version - 1
  {
  }

  lemma StepKeepsDistinct(ttl: int, s: State, op: Op)
    requires Enabled(s, op) && Distinct(s.rows)
    ensures Distinct(Apply(ttl, s, op).rows)
  {
    hide MaxVersion, StorageMb, Upload, Without, Charged;
    if op.Promote? {
      NewVersionIsFresh(s, op);
    }
  }

  /** No two live rows are ever the same user, name and version. */
  lemma {:induction false} RowsStayDistinct(ttl: int, states: seq<State>, ops: seq<Op>, n: nat)
    requires Run(ttl, states, ops) && n < |states|
    ensures Distinct(states[n].rows)
  {
    hide Apply, Enabled, Distinct;
    if n > 0 {
      RowsStayDistinct(ttl, states, ops, n - 1);
      StepKeepsDistinct(ttl, states[n - 1], ops[n - 1]);
    } else {
      NoRowsAreDistinct();
    }
  }

  lemma NoRowsAreDistinct()
    ensures Distinct([])
  {
  }

  /** Two models can hold the same key exactly when they are the same model or one name goes on
      from the name and version of the other. */
  lemma ModelsShareAKeyIff(r: Row, q: Row)
    ensures (exists key :: Owns(r.Prefix(), key) && Owns(q.Prefix(), key)) <==> r.SameModel(q) || r.Clashes(q)
  {
    PrefixStartsIff(r.user, r.name, r.version, q.user, q.name, q.version);
    PrefixStartsIff(q.user, q.name, q.version, r.user, r.name, r.version);
    var p1, p2 := r.Prefix(), q.Prefix();
    hide Nested, Row.Prefix;
    if key :| Owns(p1, key) && Owns(p2, key) {
      KeysOfOneModel(p1, p2, key);
    } else {
      assert !(Owns(p1, p2) && Owns(p2, p2)) && !(Owns(p1, p1) && Owns(p2, p1));
    }
  }

  lemma RemovedModelDiffers(rows: seq<Row>, i: nat, r: Row)
    requires i < |rows| && Distinct(rows) && r in rows[..i] + rows[i + 1..]
    ensures !r.SameModel(rows[i])
  {
    var k :| 0 <= k < |rows| && rows[k] == r && k != i;
    assert !rows[k].SameModel(rows[i]) && !rows[i].SameModel(rows[k]);
  }

  /** The step neither uploads nor deletes a model that clashes with r. */
  predicate Spares(s: State, op: Op, r: Row) {
    match op
    case Promote(_, _, _, _, _, _, _) => Charged(s, op) ==> !NewRow(s, op).Clashes(r)
    case Delete(_, index) => index < |s.rows| ==> !s.rows[index].Clashes(r)
    case _ => true
  }

  /** No promotion or deletion touches a file of another live model it does not clash with. */
  lemma StepKeepsOtherModels(ttl: int, s: State, op: Op, r: Row)
    requires Enabled(s, op) && Distinct(s.rows) && Spares(s, op, r)
    requires r in s.rows && r in Apply(ttl, s, op).rows
    ensures Files(Apply(ttl, s, op).objects, r.Prefix()) == Files(s.objects, r.Prefix())
  {
    hide MaxVersion, StorageMb, Charged, Row.Prefix, Row.Clashes;
    var t, p := Apply(ttl, s, op), r.Prefix();
    var changed := r;
    if op.Promote? {
      changed := NewRow(s, op);
      NewVersionIsFresh(s, op);
    } else if op.Delete? {
      changed := s.rows[op.index];
      RemovedModelDiffers(s.rows, op.index, r);
    }
    if (op.Promote? && Charged(s, op)) || op.Delete? {
      ModelsShareAKeyIff(r, changed);
      ClashesBothWays(r, changed);
      SameUnderPrefix(s.objects, t.objects, p, changed.Prefix());
    }
  }

  lemma ClashesBothWays(r: Row, q: Row)
    ensures r.Clashes(q) <==> q.Clashes(r)
  {
  }

  predicate Owns(prefix: string, key: string) { prefix <= key }

  lemma SameUnderPrefix(before: Objects, after: Objects, p: string, q: string)
    requires forall key | Owns(p, key) :: !Owns(q, key)
    requires forall key | !Owns(q, key) :: (key in before <==> key in after) && (key in before ==> before[key] == after[key])
    ensures Files(after, p) == Files(before, p)
  {
    hide Names, Listed;
    NamedIff(before, p);
    NamedIff(after, p);
    forall n: string ensures p + n in before <==> p + n in after {
      assert Owns(p, p + n);
    }
    assert forall n: string :: Owns(p, p + n);
    assert Names(after, p) == Names(before, p);
  }

  /** While a model is live and no promotion or deletion clashes with it, nobody changes what
      downloading it returns. */
  lemma {:induction false} LiveModelsKeepTheirFiles(ttl: int, states: seq<State>, ops: seq<Op>, i: nat, j: nat, r: Row)
    requires Run(ttl, states, ops) && i <= j < |states|
    requires forall k | i <= k <= j :: r in states[k].rows
    requires forall k | i <= k < j :: Spares(states[k], ops[k], r)
    ensures Files(states[j].objects, r.Prefix()) == Files(states[i].objects, r.Prefix())
  {
    hide Apply, Enabled, Files, Distinct, Row.Prefix, Spares;
    if i < j {
      LiveModelsKeepTheirFiles(ttl, states, ops, i, j - 1, r);
      RowsStayDistinct(ttl, states, ops, j - 1);
      assert r in states[j].rows && states[j] == Apply(ttl, states[j - 1], ops[j - 1]);
      StepKeepsOtherModels(ttl, states[j - 1], ops[j - 1], r);
    }
  }

  /** Names without a slash clash with nothing that has none. */
  lemma SlashlessModelsNeverClash(r: Row, q: Row)
    requires '/' !in r.name && '/' !in q.name
    ensures !r.Clashes(q)
  {
    SlashlessNamesDoNotNest(r.name, r.version, q.name);
    SlashlessNamesDoNotNest(q.name, q.version, r.name);
  }

  /** A deletion leaves another model's files as they were exactly when none of them lies under
      the deleted prefix. */
  lemma DeletionSparesIff(ttl: int, s: State, op: Op, r: Row)
    requires Enabled(s, op) && op.Delete?
    ensures Files(Apply(ttl, s, op).objects, r.Prefix()) == Files(s.objects, r.Prefix())
       <==> forall n | n in Names(s.objects, r.Prefix()) :: !Owns(s.rows[op.index].Prefix(), r.Prefix() + n)
  {
    hide Row.Prefix, Names, Listed;
    var before, after, p := s.objects, Apply(ttl, s, op).objects, r.Prefix();
    NamedIff(before, p);
    NamedIff(after, p);
    assert Files(before, p).Keys == Names(before, p) && Files(after, p).Keys == Names(after, p);
    if forall n | n in Names(before, p) :: !Owns(s.rows[op.index].Prefix(), p + n) {
      assert Names(after, p) == Names(before, p);
    }
  }

  /** Deleting a model removes every file of a model nested in it, live or not. */
  lemma EnclosedModelLosesItsFiles(ttl: int, s: State, op: Op, r: Row)
    requires Enabled(s, op) && op.Delete? && s.rows[op.index].Encloses(r)
    ensures Files(Apply(ttl, s, op).objects, r.Prefix()) == map[]
  {
    var q, after := s.rows[op.index], Apply(ttl, s, op).objects;
    PrefixStartsIff(q.user, q.name, q.version, r.user, r.name, r.version);
    hide Row.Prefix, Names, Nested;
    NamedIff(after, r.Prefix());
    forall n ensures r.Prefix() + n !in after {
      assert q.Prefix() <= r.Prefix() <= r.Prefix() + n;
    }
    assert Names(after, r.Prefix()) == {};
  }

  /** Downloading a freshly promoted model returns exactly what was uploaded, just when no file a
      failed promotion left under the reused prefix is missing from the upload. */
  lemma PromotedModelRoundTrips(ttl: int, s: State, op: Op)
    requires Enabled(s, op) && op.Promote? && Charged(s, op) && op.committed
    requires forall f | f in op.files :: Listed(f.relative)
    ensures var prefix := NewRow(s, op).Prefix();
      Files(Apply(ttl, s, op).objects, prefix) == AsMap(op.files) <==> Names(s.objects, prefix) <= AsMap(op.files).Keys
  {
    assert op.files[..|op.files|] == op.files;
    AsMapNames(op.files);
    RoundTripIff(s.objects, NewRow(s, op).Prefix(), AsMap(op.files));
  }

  /** A promotion into an unused prefix stores exactly as many bytes as its row records. */
  lemma RowSizeIsWhatIsStored(ttl: int, s: State, op: Op)
    requires Enabled(s, op) && op.Promote? && Charged(s, op) && op.committed && DistinctNames(op.files)
    requires forall k | k in s.objects :: !(NewRow(s, op).Prefix() <= k)
    ensures SumSizes(Under(Apply(ttl, s, op).objects, NewRow(s, op).Prefix())) == NewRow(s, op).size
  {
    hide Upload, Under, SumSizes, AsMap, StorageMb, MaxVersion, Row.Prefix;
    assert op.files[..op.uploaded] == op.files;
    AsMapHoldsTheFiles(op.files);
    UploadStoresAllBytes(s.objects, NewRow(s, op).Prefix(), AsMap(op.files));
  }

  /** And as long as the model is live and nothing that clashes with it is touched, downloading it
      returns as many bytes as its row records. */
  lemma LiveModelsStoreTheirSize(ttl: int, states: seq<State>, ops: seq<Op>, i: nat, j: nat)
    requires Run(ttl, states, ops) && i < j < |states|
    requires ops[i].Promote? && ops[i].committed && Charged(states[i], ops[i]) && DistinctNames(ops[i].files)
    requires forall f | f in ops[i].files :: Listed(f.relative)
    requires Names(states[i].objects, NewRow(states[i], ops[i]).Prefix()) == {}
    requires forall k | i < k <= j :: NewRow(states[i], ops[i]) in states[k].rows
    requires forall k | i < k < j :: Spares(states[k], ops[k], NewRow(states[i], ops[i]))
    ensures var r := NewRow(states[i], ops[i]); SumSizes(Files(states[j].objects, r.Prefix())) == r.size
  {
    var r := NewRow(states[i], ops[i]);
    assert r.size == TotalSize(ops[i].files);
    assert Enabled(states[i], ops[i]) && states[i + 1] == Apply(ttl, states[i], ops[i]);
    hide Apply, Enabled, Files, Names, SumSizes, AsMap, Row.Prefix, Spares, NewRow, Charged, TotalSize;
    PromotedModelRoundTrips(ttl, states[i], ops[i]);
    LiveModelsKeepTheirFiles(ttl, states, ops, i + 1, j, r);
    AsMapHoldsTheFiles(ops[i].files);
  }

  lemma {:induction false} AsMapNames(files: seq<File>)
    ensures forall n :: n in AsMap(files) <==> exists f | f in files :: f.relative == n
  {
    if files != [] {
      AsMapNames(files[..|files| - 1]);
      assert files == files[..|files| - 1] + [files[|files| - 1]];
    }
  }
}
