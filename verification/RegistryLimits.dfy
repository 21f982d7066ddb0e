/** Runs of the registry that show what its conditions are for. */
module RegistryLimits {
  import opened Common
  import opened ObjectStore
  import opened ModelRegistry
  import Quota = QuotaCounters

  /** A run of these steps ends in s. */
  ghost predicate Reaches(ttl: int, ops: seq<Op>, limit: int, s: State) {
    exists states: seq<State> :: OrderlyRun(ttl, states, ops, limit) && states[|ops|] == s
  }

  lemma Start(ttl: int, now: int, limit: int)
    ensures Reaches(ttl, [], limit, Init(now))
  {
    var states := [Init(now)];
    assert OrderlyRun(ttl, states, [], limit) && states[0] == Init(now);
  }

  lemma Do(ttl: int, ops: seq<Op>, limit: int, s: State, op: Op) returns (ops': seq<Op>, t: State)
    requires Reaches(ttl, ops, limit, s) && Enabled(s, op) && Orderly(s, op, limit)
    ensures ops' == ops + [op] && t == Apply(ttl, s, op) && Reaches(ttl, ops', limit, t)
  {
    hide Apply, Enabled, Orderly;
    ops', t := ops + [op], Apply(ttl, s, op);
    var states: seq<State> :| OrderlyRun(ttl, states, ops, limit) && states[|ops|] == s;
    var longer := states + [t];
    assert OrderlyRun(ttl, longer, ops', limit) && longer[|ops'|] == t;
  }

  /** The first version of a name, from one file, within the quota. */
  lemma PromoteFirst(ttl: int, ops: seq<Op>, limit: int, s: State, user: UserId, name: string, file: File)
    returns (ops': seq<Op>, t: State)
    requires Reaches(ttl, ops, limit, s)
    requires forall r | r in s.rows :: r.user != user || r.name != name
    requires file.data != [] && Used(s, user) + StorageMb(|file.data|) <= limit
    ensures Reaches(ttl, ops', limit, t) && Vanishes(ops', user) == Vanishes(ops, user)
    ensures var row, mb := Row(user, name, 1, |file.data|), StorageMb(|file.data|);
      && t.rows == s.rows + [row]
      && t.objects == Upload(s.objects, row.Prefix(), map[file.relative := file.data])
      && t.counters == Quota.Consume(s.counters, StorageKey(user), mb, false, s.now, ttl)
      && t.now == s.now
  {
    hide Apply, StorageMb, Upload, MaxVersion, TotalSize, AsMap, Row.Prefix, Quota.Consume, Quota.Read, Reaches, Vanishes;
    var op := Promote(user, name, [file], true, limit, 1, true);
    OneFile(file);
    ChargedAtLeastOne(|file.data|);
    assert MaxVersion(s.rows, user, name) == 0;
    assert [file][..1] == [file];
    PromotionCases(ttl, s, op);
    ops', t := Do(ttl, ops, limit, s, op);
    NoVanish(ops, op, user);
  }

  lemma NoVanish(ops: seq<Op>, op: Op, user: UserId)
    requires !op.Vanish?
    ensures Vanishes(ops + [op], user) == Vanishes(ops, user)
  {
    assert (ops + [op])[..|ops|] == ops;
  }

  /** The time to live passes and the storage counter goes. */
  lemma LetExpire(ttl: nat, ops: seq<Op>, limit: int, s: State, user: UserId) returns (ops': seq<Op>, t: State)
    requires Reaches(ttl, ops, limit, s)
    requires StorageKey(user) in s.counters && s.counters[StorageKey(user)].expiresAt == Some(s.now + ttl)
    ensures Reaches(ttl, ops', limit, t) && Vanishes(ops', user) == Vanishes(ops, user) + 1
    ensures t.rows == s.rows && t.objects == s.objects && Used(t, user) == 0
  {
    var mid;
    ops', mid := Do(ttl, ops, limit, s, Wait(ttl));
    assert ops'[..|ops|] == ops;
    var before := ops';
    ops', t := Do(ttl, before, limit, mid, Vanish(user));
    assert ops'[..|before|] == before;
  }

  lemma ConsumeFromNothing(user: UserId, mb: nat, now: int, ttl: int)
    ensures var cs := Quota.Consume(map[], StorageKey(user), mb, false, now, ttl);
      StorageKey(user) in cs && cs[StorageKey(user)] == Quota.Counter(mb, Some(now + ttl))
  {
  }

  lemma OneFile(file: File)
    ensures TotalSize([file]) == |file.data| && AsMap([file]) == map[file.relative := file.data]
  {
    assert [file][..0] == [];
    TotalSizeOfOne(file);
  }

  lemma ChargedAtLeastOne(size: nat)
    requires size > 0
    ensures StorageMb(size) >= 1
  {
  }

  lemma ChargedInFull(mb: nat)
    ensures StorageMb(mb * MEGABYTE) == mb
  {
    ChargeCoversSize(mb * MEGABYTE);
  }

  /** One vanishing counter is enough for a user to store twice the quota. */
  lemma ExpiryDoublesWhatIsStored(ttl: nat, now: int, limit: nat, user: UserId, data: Bytes) returns (ops: seq<Op>, s: State)
    requires limit >= 1 && |data| == limit * MEGABYTE
    ensures Reaches(ttl, ops, limit, s) && Vanishes(ops, user) == 1
    ensures StoredBytes(s.rows, user) == 2 * limit * MEGABYTE > limit * MEGABYTE
  {
    hide Upload, Row.Prefix, StorageMb, Apply, Enabled, Quota.Consume, Reaches;
    ChargedInFull(limit);
    ConsumeFromNothing(user, limit, now, ttl);
    var file := File("weights", data);
    Start(ttl, now, limit);
    ops, s := PromoteFirst(ttl, [], limit, Init(now), user, "a", file);
    ops, s := LetExpire(ttl, ops, limit, s, user);
    ops, s := PromoteFirst(ttl, ops, limit, s, user, "b", file);
    TwoRows(user, |data|);
  }

  lemma TwoRows(user: UserId, size: nat)
    ensures StoredBytes([] + [Row(user, "a", 1, size)] + [Row(user, "b", 1, size)], user) == 2 * size
  {
    var one := [Row(user, "a", 1, size)];
    assert StoredBytes(one, user) == size;
    assert (one + [Row(user, "b", 1, size)])[..1] == one;
    assert [] + one == one;
  }

  /** Deleting one model empties another live one: ("a", 1) takes the files of ("a/1", 1), and
      so for every name in place of "a". */
  lemma DeletingOneModelEmptiesAnother(ttl: nat, now: int, user: UserId, name: string)
    returns (before: State, op: Op, ops: seq<Op>, r: Row)
    ensures Reaches(ttl, ops, 2, before) && Enabled(before, op) && op == Delete(user, 0)
    ensures before.rows[0] == Row(user, name, 1, 1) && r == Row(user, name + ['/'] + Decimal(1), 1, 1)
    ensures r in before.rows && r in Apply(ttl, before, op).rows
    ensures Files(before.objects, r.Prefix()) == map["w" := [0]]
    ensures Files(Apply(ttl, before, op).objects, r.Prefix()) == map[]
  {
    hide Files, Names, Upload, Row.Prefix, StorageMb, Nested, Decimal, Quota.Consume, Reaches;
    ConsumeFromNothing(user, 1, now, ttl);
    var file, nested := File("w", [0]), name + ['/'] + Decimal(1);
    Start(ttl, now, 2);
    OneByteIsOneMb();
    ops, before := PromoteFirst(ttl, [], 2, Init(now), user, name, file);
    ops, before := PromoteFirst(ttl, ops, 2, before, user, nested, file);
    op, r := Delete(user, 0), Row(user, nested, 1, 1);
    NestedFiles(Row(user, name, 1, 1).Prefix(), r.Prefix(), "w", [0]) by {
      NestedPrefixIsLonger(user, name);
    }
    SlashedNamesCollide(user, name, 1, 1);
    EnclosedModelLosesItsFiles(ttl, before, op, r);
  }

  lemma NestedPrefixIsLonger(user: UserId, name: string)
    ensures |Row(user, name + ['/'] + Decimal(1), 1, 1).Prefix()| >= |Row(user, name, 1, 1).Prefix()| + 2
  {
  }

  /** A file of one character under a prefix is not under a longer one, so the same name can be
      uploaded there into nothing. */
  lemma NestedFiles(p: string, q: string, name: string, data: Bytes)
    requires |q| >= |p| + |name| + 1 && Listed(name)
    ensures var files := map[name := data];
      Files(Upload(Upload(map[], p, files), q, files), q) == files
  {
    hide Listed, Upload, Names, Files;
    var files := map[name := data];
    var first := Upload(map[], p, files);
    UploadedKeys(map[], p, files);
    NamedIff(first, q);
    forall k | k in first ensures |k| == |p| + |name| {
      assert Replaces(p, files, k);
    }
    assert forall n :: |q + n| > |p| + |name|;
    assert Names(first, q) == {};
    RoundTripIff(first, q, files);
  }

  lemma OneByteIsOneMb()
    ensures StorageMb(1) == 1
  {
  }
}
