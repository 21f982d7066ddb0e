/** The object store behind the model registry (api/storage.py): keys are flat strings, a model
    owns a prefix, and the listing arrives in pages. */
module ObjectStore {
  import opened Common

  type Bytes = seq<bv8>
  type Objects = map<string, Bytes>

  // ------------------------------------------------------------------ prefixes

  function Digit(d: nat): char
    requires d < 10
  {
    "0123456789"[d]
  }

  function Decimal(n: nat): (s: string)
    ensures s != "" && '/' !in s
  {
    if n < 10 then [Digit(n)] else Decimal(n / 10) + [Digit(n % 10)]
  }

  /** The number a digit stands for. */
  function DigitValue(c: char): nat {
    if '0' <= c <= '9' then c as int - '0' as int else 0
  }

  /** Reading digits from left to right. */
  function Value(digits: string): nat {
    if digits == "" then 0 else 10 * Value(digits[..|digits| - 1]) + DigitValue(digits[|digits| - 1])
  }

  /** A version is written in the usual way: reading it gives it back. */
  lemma {:induction false} DecimalReadsBack(n: nat)
    ensures Value(Decimal(n)) == n
  {
    hide Value, Digit, DigitValue;
    DigitReadsBack(n % 10);
    assert n == 10 * (n / 10) + n % 10;
    if n < 10 {
      assert "" + [Digit(n)] == [Digit(n)];
      ValueOfOneMore("", Digit(n));
    } else {
      DecimalReadsBack(n / 10);
      ValueOfOneMore(Decimal(n / 10), Digit(n % 10));
    }
  }

  lemma DigitReadsBack(d: nat)
    requires d < 10
    ensures DigitValue(Digit(d)) == d
  {
  }

  lemma ValueOfOneMore(digits: string, c: char)
    ensures Value("") == 0
    ensures Value(digits + [c]) == 10 * Value(digits) + DigitValue(c)
  {
    assert (digits + [c])[..|digits|] == digits;
  }

  lemma DecimalIsInjective(m: nat, n: nat)
    requires Decimal(m) == Decimal(n)
    ensures m == n
  {
    DecimalReadsBack(m);
    DecimalReadsBack(n);
  }

  function ModelPrefix(user: string, name: string, version: nat): string {
    "models" + ['/'] + (user + ['/'] + (name + ['/'] + (Decimal(version) + ['/'])))
  }

  function NameAndVersion(name: string, version: nat): string {
    name + ['/'] + (Decimal(version) + ['/'])
  }

  /** The name is, or goes on from, the other name, a slash and its version. */
  predicate Nested(name: string, version: nat, inName: string) {
    NameAndVersion(name, version) <= inName + ['/']
  }

  /** What follows the last separator is fixed by the whole. */
  lemma SplitAtLastSeparator(a1: string, b1: string, a2: string, b2: string)
    requires '/' !in b1 && '/' !in b2 && a1 + ['/'] + b1 == a2 + ['/'] + b2
    ensures a1 == a2 && b1 == b2
  {
    var s := a1 + ['/'] + b1;
    assert s[|a1|] == '/' && s[|a2|] == '/';
    assert forall k | |a1| < k < |s| :: s[k] == b1[k - |a1| - 1];
    assert forall k | |a2| < k < |s| :: s[k] == b2[k - |a2| - 1];
    assert |a1| == |a2|;
    assert s[..|a1|] == a1 == a2 && s[|a1| + 1..] == b1 == b2;
  }

  lemma NameAndVersionStartsIff(n1: string, v1: nat, n2: string, v2: nat)
    ensures NameAndVersion(n1, v1) <= NameAndVersion(n2, v2) <==> (n1 == n2 && v1 == v2) || Nested(n1, v1, n2)
  {
    var d1, d2 := Decimal(v1), Decimal(v2);
    var t1, t2 := NameAndVersion(n1, v1), NameAndVersion(n2, v2);
    hide Decimal;
    assert t2 == (n2 + ['/']) + (d2 + ['/']);
    assert forall k | |n2| < k < |t2| - 1 :: t2[k] == d2[k - |n2| - 1];
    if t1 <= t2 {
      if |t1| == |t2| {
        assert n1 + ['/'] + d1 == t1[..|t1| - 1] == t2[..|t2| - 1] == n2 + ['/'] + d2;
        SplitAtLastSeparator(n1, d1, n2, d2);
        DecimalIsInjective(v1, v2);
      } else {
        var pos := |t1| - 1;
        assert t2[pos] == t1[pos] == '/';
        assert t1 == t2[..|t1|] <= n2 + ['/'];
      }
    }
  }

  /** Which model prefixes start which: the prefix of the same model, and that of a model of the
      same user whose name goes on from this one's name and version. Users hold no slash. */
  lemma PrefixStartsIff(u1: string, n1: string, v1: nat, u2: string, n2: string, v2: nat)
    requires '/' !in u1 && '/' !in u2
    ensures ModelPrefix(u1, n1, v1) <= ModelPrefix(u2, n2, v2)
       <==> u1 == u2 && ((n1 == n2 && v1 == v2) || Nested(n1, v1, n2))
  {
    var t1, t2 := NameAndVersion(n1, v1), NameAndVersion(n2, v2);
    assert t1 == n1 + (['/'] + (Decimal(v1) + ['/'])) && t2 == n2 + (['/'] + (Decimal(v2) + ['/']));
    var m := "models" + ['/'];
    assert ModelPrefix(u1, n1, v1) == m + (u1 + ['/'] + t1) && ModelPrefix(u2, n2, v2) == m + (u2 + ['/'] + t2);
    NameAndVersionStartsIff(n1, v1, n2, v2);
    hide NameAndVersion, Nested, Decimal, ModelPrefix;
    if m + (u1 + ['/'] + t1) <= m + (u2 + ['/'] + t2) {
      SplitAtSeparator('/', "models", u1 + ['/'] + t1, "models", u2 + ['/'] + t2);
      SplitAtSeparator('/', u1, t1, u2, t2);
    }
    if u1 == u2 && t1 <= t2 {
      assert m + (u2 + ['/'] + t2) == (m + (u1 + ['/'] + t1)) + t2[|t1|..];
    }
  }

  /** Names without a slash never nest. */
  lemma SlashlessNamesDoNotNest(name: string, version: nat, inName: string)
    requires '/' !in inName
    ensures !Nested(name, version, inName)
  {
    var t := NameAndVersion(name, version);
    assert t[|name|] == '/' && t[|t| - 1] == '/' && |name| < |t| - 1;
    assert forall k | 0 <= k < |inName| :: (inName + ['/'])[k] == inName[k] != '/';
  }

  /** Every model has names whose prefixes lie under its own. */
  lemma SlashedNamesCollide(user: string, name: string, version: nat, other: nat)
    requires '/' !in user
    ensures Nested(name, version, name + ['/'] + Decimal(version))
    ensures ModelPrefix(user, name, version) <= ModelPrefix(user, name + ['/'] + Decimal(version), other)
    ensures ModelPrefix(user, name, version) != ModelPrefix(user, name + ['/'] + Decimal(version), other)
  {
    var inName := name + ['/'] + Decimal(version);
    assert NameAndVersion(name, version) == inName + ['/'];
    PrefixStartsIff(user, name, version, user, inName, other);
    PrefixStartsIff(user, inName, other, user, name, version);
    assert |NameAndVersion(inName, other)| > |name + ['/']|;
  }

  lemma KeysOfOneModel(p1: string, p2: string, key: string)
    requires p1 <= key && p2 <= key
    ensures p1 <= p2 || p2 <= p1
  {
    if |p1| <= |p2| {
      assert p1 == key[..|p1|] == p2[..|p1|];
    } else {
      assert p2 == key[..|p2|] == p1[..|p2|];
    }
  }

  // ------------------------------------------------------------------ what the calls mean

  function Under(objects: Objects, prefix: string): Objects {
    map k | k in objects && prefix <= k :: objects[k]
  }

  function Without(objects: Objects, prefix: string): Objects {
    map k | k in objects && !(prefix <= k) :: objects[k]
  }

  /** A relative name the listing keeps. */
  predicate Listed(relative: string) {
    relative != "" && relative[|relative| - 1] != '/'
  }

  /** Folders are no obstacle: what is listed is what does not itself end in a slash. */
  lemma ListedInFolders(folder: string, name: string)
    ensures name != "" ==> (Listed(folder + ['/'] + name) <==> Listed(name))
    ensures name != "" && '/' !in name ==> Listed(name)
    ensures !Listed("") && !Listed(folder + ['/'])
  {
  }

  /** Relative names of the files under a prefix. */
  function Names(objects: Objects, prefix: string): set<string> {
    set k | k in objects && prefix <= k && Listed(k[|prefix|..]) :: k[|prefix|..]
  }

  lemma NamedIff(objects: Objects, prefix: string)
    ensures forall r :: r in Names(objects, prefix) <==> prefix + r in objects && Listed(r)
  {
    assert forall r :: prefix <= prefix + r && (prefix + r)[|prefix|..] == r;
    assert forall k | k in objects && prefix <= k :: prefix + k[|prefix|..] == k;
  }

  /** The files under a prefix by their relative names. */
  function Files(objects: Objects, prefix: string): map<string, Bytes> {
    NamedIff(objects, prefix);
    map r | r in Names(objects, prefix) :: objects[prefix + r]
  }

  /** The store after the files went up one by one. */
  function Upload(objects: Objects, prefix: string, files: map<string, Bytes>): Objects {
    map k | k in objects.Keys + (set n | n in files :: prefix + n) ::
      if prefix <= k && k[|prefix|..] in files then files[k[|prefix|..]] else objects[k]
  }

  predicate Replaces(prefix: string, files: map<string, Bytes>, k: string) {
    prefix <= k && k[|prefix|..] in files
  }

  lemma UploadedKeys(objects: Objects, prefix: string, files: map<string, Bytes>)
    ensures forall n | n in files :: prefix + n in Upload(objects, prefix, files) && Upload(objects, prefix, files)[prefix + n] == files[n]
    ensures forall k :: k in Upload(objects, prefix, files) <==> k in objects || Replaces(prefix, files, k)
    ensures forall k | k in Upload(objects, prefix, files) && !Replaces(prefix, files, k) :: Upload(objects, prefix, files)[k] == objects[k]
  {
    assert forall n :: prefix <= prefix + n && (prefix + n)[|prefix|..] == n;
    assert forall k | prefix <= k :: prefix + k[|prefix|..] == k;
  }

  function Flat(pages: seq<seq<string>>): seq<string> {
    if pages == [] then [] else pages[0] + Flat(pages[1..])
  }

  /** The pages list every key under the prefix once. */
  ghost predicate IsListing(objects: Objects, prefix: string, pages: seq<seq<string>>) {
    && NoDuplicates(Flat(pages))
    && forall k :: k in Flat(pages) <==> k in objects && prefix <= k
  }

  lemma {:induction false} FlatGrows(pages: seq<seq<string>>, i: nat)
    requires i < |pages|
    ensures Flat(pages[..i + 1]) == Flat(pages[..i]) + pages[i]
  {
    if i == 0 {
      assert pages[..1] == [pages[0]] && pages[..0] == [] && pages[..1][1..] == [];
    } else {
      FlatGrows(pages[1..], i - 1);
      assert pages[..i + 1][1..] == pages[1..][..i] && pages[..i][1..] == pages[1..][..i - 1];
    }
  }

  lemma NamesAfterUpload(objects: Objects, prefix: string, files: map<string, Bytes>)
    requires forall r | r in files :: Listed(r)
    ensures Names(Upload(objects, prefix, files), prefix) == Names(objects, prefix) + files.Keys
  {
    hide Names, Upload, Listed;
    var up := Upload(objects, prefix, files);
    UploadedKeys(objects, prefix, files);
    NamedIff(objects, prefix);
    NamedIff(up, prefix);
    forall r ensures r in Names(up, prefix) <==> r in Names(objects, prefix) || r in files {
      assert prefix <= prefix + r && (prefix + r)[|prefix|..] == r;
    }
  }

  /** Uploading into a prefix with no files and downloading gives back the same files; with
      leftovers it does exactly when the upload covers them. */
  lemma RoundTripIff(objects: Objects, prefix: string, files: map<string, Bytes>)
    requires forall r | r in files :: Listed(r)
    ensures Files(Upload(objects, prefix, files), prefix) == files
       <==> Names(objects, prefix) <= files.Keys
  {
    hide Names, Upload, Listed;
    var up := Upload(objects, prefix, files);
    NamesAfterUpload(objects, prefix, files);
    UploadedKeys(objects, prefix, files);
    assert Files(up, prefix).Keys == Names(up, prefix);
    if Names(objects, prefix) <= files.Keys {
      assert Names(up, prefix) == files.Keys;
      assert Files(up, prefix) == files;
    }
  }

  /** The relative names, once each, of those of the keys that are files. */
  ghost predicate ListsNames(names: seq<string>, prefix: string, keys: seq<string>) {
    && NoDuplicates(names)
    && forall r :: r in names <==> Listed(r) && prefix + r in keys
  }

  lemma NothingListed(prefix: string)
    ensures ListsNames([], prefix, [])
  {
  }

  lemma NextKey(names: seq<string>, prefix: string, keys: seq<string>, key: string)
    requires ListsNames(names, prefix, keys) && prefix <= key
    requires key !in keys
    ensures var relative := key[|prefix|..];
      && prefix + relative == key
      && ListsNames(if Listed(relative) then names + [relative] else names, prefix, keys + [key])
  {
    hide Listed;
    var relative := key[|prefix|..];
    assert prefix + relative == key;
    forall r | prefix + r == key ensures r == relative {
      assert (prefix + r)[|prefix|..] == r;
    }
    if Listed(relative) {
      FreshAtTheEnd(names, relative);
    }
  }

  lemma NamesAreListed(names: seq<string>, objects: Objects, prefix: string, keys: seq<string>)
    requires ListsNames(names, prefix, keys)
    requires forall k :: k in keys <==> k in objects && prefix <= k
    ensures NoDuplicates(names)
    ensures forall r :: r in names <==> r in Names(objects, prefix)
  {
    hide Listed, Names;
    NamedIff(objects, prefix);
    assert forall r: string :: prefix <= prefix + r;
  }

  // ------------------------------------------------------------------ bytes

  /** Lengths of all the objects, summed. */
  ghost function SumSizes(objects: Objects): nat
    decreases |objects|
  {
    if objects == map[] then 0
    else
      var k :| k in objects;
      |objects[k]| + SumSizes(objects - {k})
  }

  lemma {:induction false} SumWithout(objects: Objects, k: string)
    requires k in objects
    ensures SumSizes(objects) == |objects[k]| + SumSizes(objects - {k})
    decreases |objects|
  {
    var j :| j in objects && SumSizes(objects) == |objects[j]| + SumSizes(objects - {j});
    if j != k {
      SumWithout(objects - {j}, k);
      SumWithout(objects - {k}, j);
      assert objects - {j} - {k} == objects - {k} - {j};
    }
  }

  lemma SumWithOneMore(objects: Objects, k: string, data: Bytes)
    requires k !in objects
    ensures SumSizes(objects[k := data]) == SumSizes(objects) + |data|
  {
    SumWithout(objects[k := data], k);
    assert objects[k := data] - {k} == objects;
  }

  lemma UploadUnder(objects: Objects, prefix: string, files: map<string, Bytes>)
    requires forall k | k in objects :: !(prefix <= k)
    ensures forall k :: k in Under(Upload(objects, prefix, files), prefix) <==> prefix <= k && k[|prefix|..] in files
    ensures forall k | k in Under(Upload(objects, prefix, files), prefix) ::
        Under(Upload(objects, prefix, files), prefix)[k] == files[k[|prefix|..]]
  {
    UploadedKeys(objects, prefix, files);
    hide Upload;
    assert forall k | prefix <= k :: prefix + k[|prefix|..] == k;
  }

  /** An upload into an unused prefix stores as many bytes as the files have. */
  lemma {:induction false} UploadStoresAllBytes(objects: Objects, prefix: string, files: map<string, Bytes>)
    requires forall k | k in objects :: !(prefix <= k)
    ensures SumSizes(Under(Upload(objects, prefix, files), prefix)) == SumSizes(files)
    decreases |files|
  {
    hide Upload, Under, SumSizes;
    UploadUnder(objects, prefix, files);
    var under := Under(Upload(objects, prefix, files), prefix);
    if files == map[] {
      assert under == map[];
    } else {
      var n :| n in files;
      var fewer, key := files - {n}, prefix + n;
      UploadUnder(objects, prefix, fewer);
      UploadStoresAllBytes(objects, prefix, fewer);
      assert key[|prefix|..] == n && prefix <= key;
      assert forall k | prefix <= k && k != key :: k[|prefix|..] != n by {
        assert forall k | prefix <= k :: prefix + k[|prefix|..] == k;
      }
      assert under - {key} == Under(Upload(objects, prefix, fewer), prefix);
      SumWithout(under, key);
      SumWithout(files, n);
    }
  }

  // ------------------------------------------------------------------ the wrapper

  datatype FileInfo = FileInfo(key: string, size: nat, fullKey: string)

  class ObjectStorage {
    var objects: Objects

    constructor ()
      ensures objects == map[]
    {
      objects := map[];
    }

    method PutBytes(key: string, data: Bytes)
      modifies this
      ensures objects == old(objects)[key := data]
    {
      objects := objects[key := data];
    }

    /** The service refuses more than a thousand keys in one call. */
    method DeleteObjects(keys: seq<string>)
      requires |keys| <= 1000
      modifies this
      ensures objects == map k | k in old(objects) && k !in keys :: old(objects)[k]
    {
      objects := map k | k in objects && k !in keys :: objects[k];
    }

    method ListKeys(prefix: string, pages: seq<seq<string>>) returns (keys: seq<string>)
      ensures keys == Flat(pages)
    {
      keys := [];
      for i := 0 to |pages|
        invariant keys == Flat(pages[..i])
      {
        FlatGrows(pages, i);
        for j := 0 to |pages[i]|
          invariant keys == Flat(pages[..i]) + pages[i][..j]
        {
          keys := keys + [pages[i][j]];
        }
      }
      assert pages[..|pages|] == pages;
    }

    /** `delete_prefix`: exactly the keys under the prefix go, a thousand at a time. */
    method DeletePrefix(prefix: string, pages: seq<seq<string>>) returns (deleted: nat)
      requires IsListing(objects, prefix, pages)
      modifies this
      ensures objects == Without(old(objects), prefix)
      ensures deleted == |Under(old(objects), prefix)|
    {
      var keys := ListKeys(prefix, pages);
      deleted := 0;
      var offset := 0;
      while offset < |keys|
        invariant offset == deleted || (offset >= |keys| && deleted == |keys|)
        invariant deleted <= |keys|
        invariant objects == map k | k in old(objects) && k !in keys[..deleted] :: old(objects)[k]
      {
        var end := if offset + 1000 <= |keys| then offset + 1000 else |keys|;
        var chunk := keys[offset..end];
        assert keys[..end] == keys[..deleted] + chunk;
        DeleteObjects(chunk);
        deleted := deleted + |chunk|;
        offset := offset + 1000;
      }
      assert keys[..deleted] == keys;
      CountKeys(keys, Under(old(objects), prefix).Keys);
    }

    method ListFiles(prefix: string, pages: seq<seq<string>>) returns (files: seq<FileInfo>)
      requires IsListing(objects, prefix, pages)
      ensures forall f | f in files :: f.fullKey == prefix + f.key && f.fullKey in objects && f.size == |objects[f.fullKey]|
      ensures NoDuplicates(KeysOf(files))
      ensures forall r :: r in KeysOf(files) <==> r in Names(objects, prefix)
    {
      hide Listed, ListsNames, Names;
      var keys := ListKeys(prefix, pages);
      assert NoDuplicates(keys) && forall k | k in keys :: k in objects && prefix <= k;
      files := [];
      NothingListed(prefix);
      for i := 0 to |keys|
        invariant forall f | f in files :: f.fullKey == prefix + f.key && f.fullKey in objects && f.size == |objects[f.fullKey]|
        invariant ListsNames(KeysOf(files), prefix, keys[..i])
      {
        var key := keys[i];
        assert key in keys && keys[..i + 1] == keys[..i] + [key];
        NextKey(KeysOf(files), prefix, keys[..i], key);
        var relative := if prefix <= key then key[|prefix|..] else key;
        if Listed(relative) {
          var info := FileInfo(relative, |objects[key]|, key);
          assert KeysOf(files + [info]) == KeysOf(files) + [relative];
          files := files + [info];
        }
      }
      assert keys[..|keys|] == keys;
      NamesAreListed(KeysOf(files), objects, prefix, keys);
    }

    /** `download_prefix`: the files under the prefix by relative name, and how many. A name that
        leads outside the destination raises, and what was written before it stays. */
    method DownloadPrefix(prefix: string, pages: seq<seq<string>>, inside: string -> bool)
      returns (ok: bool, dest: map<string, Bytes>, count: nat)
      requires IsListing(objects, prefix, pages)
      ensures ok <==> forall r | r in Names(objects, prefix) :: inside(r)
      ensures ok ==> dest == Files(objects, prefix) && count == |dest|
      ensures forall r | r in dest :: inside(r) && prefix + r in objects && dest[r] == objects[prefix + r]
    {
      hide Names, IsListing, KeysOf, Files, Listed;
      var files := ListFiles(prefix, pages);
      ghost var names := KeysOf(files);
      dest, count := map[], 0;
      for i := 0 to |files|
        invariant forall r :: r in dest <==> r in names[..i]
        invariant forall r | r in dest :: inside(r) && prefix + r in objects && dest[r] == objects[prefix + r]
      {
        var item := files[i];
        assert item in files && names[i] == item.key && item.key in names;
        if !inside(item.key) {
          assert forall r | r in names[..i] :: r in names;
          return false, dest, 0;
        }
        assert names[..i + 1] == names[..i] + [item.key];
        dest := dest[item.key := objects[item.fullKey]];
      }
      ok, count := true, |files|;
      assert names[..|files|] == names;
      CountKeys(names, dest.Keys);
      FilesByName(objects, prefix, dest);
    }
  }

  lemma FilesByName(objects: Objects, prefix: string, files: map<string, Bytes>)
    requires forall r :: r in files <==> r in Names(objects, prefix)
    requires forall r | r in files :: prefix + r in objects && files[r] == objects[prefix + r]
    ensures files == Files(objects, prefix)
  {
    hide Names, Listed;
    assert Files(objects, prefix).Keys == Names(objects, prefix) == files.Keys;
  }

  function KeysOf(files: seq<FileInfo>): (r: seq<string>)
    ensures |r| == |files| && forall i | 0 <= i < |r| :: r[i] == files[i].key
  {
    seq(|files|, i requires 0 <= i < |files| => files[i].key)
  }

  lemma {:induction false} CountKeys(keys: seq<string>, domain: set<string>)
    requires NoDuplicates(keys) && forall k :: k in keys <==> k in domain
    ensures |keys| == |domain|
  {
    if keys == [] {
      assert domain == {};
    } else {
      var last, rest := keys[|keys| - 1], keys[..|keys| - 1];
      assert keys == rest + [last];
      CountKeys(rest, domain - {last});
    }
  }
}
