/** `promote_outputs` and `delete_model` as they act on the table, the store and the counters. */
module RegistryHandlers {
  import opened Common
  import opened ObjectStore
  import opened ModelRegistry
  import Quota = QuotaCounters

  lemma UploadNothing(objects: Objects, prefix: string)
    ensures Upload(objects, prefix, map[]) == objects
  {
  }

  lemma UploadOneMore(objects: Objects, prefix: string, files: map<string, Bytes>, name: string, data: Bytes)
    ensures Upload(objects, prefix, files)[prefix + name := data] == Upload(objects, prefix, files[name := data])
  {
    hide Upload;
    var key := prefix + name;
    assert prefix <= key && key[|prefix|..] == name;
    forall k | prefix <= k && k != key ensures k[|prefix|..] != name {
      assert prefix + k[|prefix|..] == k;
    }
    UploadedKeys(objects, prefix, files);
    UploadedKeys(objects, prefix, files[name := data]);
    var up, more := Upload(objects, prefix, files), Upload(objects, prefix, files[name := data]);
    assert more[key] == data;
    forall k | k != key && k in up ensures k in more && up[k] == more[k] {
      UploadedAt(objects, prefix, files, k);
      UploadedAt(objects, prefix, files[name := data], k);
    }
    assert up[key := data].Keys == more.Keys;
  }

  lemma UploadedAt(objects: Objects, prefix: string, files: map<string, Bytes>, k: string)
    requires k in Upload(objects, prefix, files)
    ensures Upload(objects, prefix, files)[k] == if prefix <= k && k[|prefix|..] in files then files[k[|prefix|..]] else objects[k]
  {
  }

  /** The promotion that fails at upload `fails`, at the insert, or not at all. */
  function Promotion(user: UserId, name: string, files: seq<File>, userFound: bool, limit: int, fails: nat): (op: Op)
    ensures op.Promote? && op.user == user && op.files == files && op.userFound == userFound && op.limit == limit
    ensures op.uploaded <= |files| && (op.committed ==> op.uploaded == |files|)
  {
    Promote(user, name, files, userFound, limit, if fails < |files| then fails else |files|, fails > |files|)
  }

  class Registry {
    var rows: seq<Row>
    const storage: ObjectStorage
    const redis: Quota.Redis
    const ttl: int
    ghost var abandoned: map<UserId, nat>
    ghost var expired: set<UserId>
    var now: int

    ghost function View(): State
      reads this, storage, redis
    {
      State(rows, storage.objects, redis.counters, now, abandoned, expired)
    }

    constructor (now: int, ttl: int)
      ensures View() == Init(now) && this.ttl == ttl && fresh(storage) && fresh(redis)
    {
      rows, abandoned, expired := [], map[], {};
      storage := new ObjectStorage();
      redis := new Quota.Redis();
      this.ttl := ttl;
      this.now := now;
    }

    static method DirSizeBytes(files: seq<File>) returns (total: nat)
      ensures total == TotalSize(files)
    {
      total := 0;
      for i := 0 to |files|
        invariant total == TotalSize(files[..i])
      {
        assert files[..i + 1][..i] == files[..i];
        total := total + |files[i].data|;
      }
      assert files[..|files|] == files;
    }

    /** The upload loop; it stops where an upload raises. */
    method UploadFiles(prefix: string, files: seq<File>, fails: nat) returns (uploaded: nat)
      modifies storage
      ensures uploaded == if fails < |files| then fails else |files|
      ensures storage.objects == Upload(old(storage.objects), prefix, AsMap(files[..uploaded]))
    {
      hide Upload;
      uploaded := 0;
      UploadNothing(storage.objects, prefix);
      while uploaded < |files| && uploaded != fails
        invariant uploaded <= |files| && uploaded <= fails
        invariant storage.objects == Upload(old(storage.objects), prefix, AsMap(files[..uploaded]))
      {
        var f := files[uploaded];
        UploadOneMore(old(storage.objects), prefix, AsMap(files[..uploaded]), f.relative, f.data);
        assert files[..uploaded + 1][..uploaded] == files[..uploaded];
        storage.PutBytes(prefix + f.relative, f.data);
        uploaded := uploaded + 1;
      }
    }

    /** `promote_outputs`; upload number `fails` raises, and `fails == |files|` is a failing
        insert. None is the early return, or an exception, without a model. */
    method PromoteOutputs(user: UserId, name: string, files: seq<File>, userFound: bool, limit: int, fails: nat)
      returns (model: Option<Row>)
      modifies this, storage, redis
      ensures var op := Promotion(user, name, files, userFound, limit, fails);
        && View() == Apply(ttl, old(View()), op)
        && model == if Charged(old(View()), op) && op.committed then Some(NewRow(old(View()), op)) else None
    {
      hide Apply, StorageMb, Upload, MaxVersion, TotalSize, AsMap, Row.Prefix, Quota.Consume, Quota.Judge, Quota.Read;
      PromotionCases(ttl, View(), Promotion(user, name, files, userFound, limit, fails));
      if files == [] {
        return None;
      }
      var sizeBytes := DirSizeBytes(files);
      var mb := StorageMb(sizeBytes);
      if !userFound {
        return None;
      }
      var verdict := redis.Enforce(user, Quota.StorageMb, mb, limit, 0, now, ttl);
      if !verdict.Granted? {
        return None;
      }
      var version := MaxVersion(rows, user, name) + 1;
      var row := Row(user, name, version, sizeBytes);
      var _ := UploadFiles(row.Prefix(), files, fails);
      if fails <= |files| {
        abandoned := abandoned[user := (if user in abandoned then abandoned[user] else 0) + mb];
        return None;
      }
      rows := rows + [row];
      model := Some(row);
    }

    /** `delete_model` by an owner or an administrator. */
    method DeleteModel(caller: UserId, index: nat, pages: seq<seq<string>>)
      requires index < |rows| && IsListing(storage.objects, rows[index].Prefix(), pages)
      modifies this, storage, redis
      ensures View() == Apply(ttl, old(View()), Delete(caller, index))
    {
      var model := rows[index];
      var _ := storage.DeletePrefix(model.Prefix(), pages);
      var mb := StorageMb(model.size);
      if mb > 0 {
        var _ := redis.Release(caller, Quota.StorageMb, mb, now);
      }
      rows := rows[..index] + rows[index + 1..];
    }
  }
}
