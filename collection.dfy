/**
 * collection.go: `IntegerCollection`, an in-memory store of decoded JSON objects keyed
 * by positive int64 ids, with an auto-increment counter `pkey` and a record count
 * `length`. The schema's decoding and encoding are outside the model: operations take
 * the decode outcome as input and return the stored object instead of its JSON bytes.
 */
module Collection {
  import opened Wrappers
  import opened Json
  import opened Strconv

  const DoesNotExist := "No resource exists at this key"
  const DuplicateResource := "A resource aready exists at this key"
  const IdMismatch := "Id of resource and id provided do not match"
  const ImproperKey := "An improper key was given"
  /** Only CreateGuarded returns it: the counter has no next positive value. */
  const KeysExhausted := "No automatic key is left"

  /** What the schema's Unmarshal gives back: the clean object, or its error. */
  datatype Decoded = Decoded(obj: Object) | DecodeError(msg: string)

  /**
   * Go's `int64(f)` on amd64: the fraction is dropped toward zero; a value outside
   * the int64 range becomes the minimum int64.
   */
  function ToInt64(f: real): (n: int)
    ensures MinInt64 <= n <= MaxInt64
    ensures MinInt64 <= Truncate(f) <= MaxInt64 ==> n == Truncate(f)
  {
    var t := Truncate(f);
    if MinInt64 <= t <= MaxInt64 then t else MinInt64
  }

  /**
   * The id an object asks for: its "id" member converted to int64 when it is a JSON
   * number, otherwise 0 (the zero float64 of a failed type assertion).
   */
  function GivenId(obj: Object): (id: int)
    ensures MinInt64 <= id <= MaxInt64
    ensures "id" !in obj || !obj["id"].JNumber? ==> id == 0
  {
    if "id" in obj && obj["id"].JNumber? then ToInt64(obj["id"].n) else 0
  }

  /** Go's `pkey += 1` on an int64: the successor, wrapping from the largest int64 to the smallest. */
  function NextKey(pkey: int): (n: int)
    requires InRange64(pkey)
    ensures InRange64(n)
    ensures n == pkey + 1 || (pkey == MaxInt64 && n == MinInt64)
  {
    if pkey == MaxInt64 then MinInt64 else pkey + 1
  }

  /** A request key parsed as Go's `strconv.ParseInt(key, 10, 64)`. */
  function ParseKey(key: string): Option<int> {
    ParseInt(key)
  }

  /** A listing of a set: each element once, nothing else; a Go map iteration order is one of its keys. */
  ghost predicate IsListing(keys: set<int>, order: seq<int>) {
    && (forall i, j :: 0 <= i < j < |order| ==> order[i] != order[j])
    && (forall i :: 0 <= i < |order| ==> order[i] in keys)
    && (forall k :: k in keys ==> k in order)
  }

  /** A listing has exactly as many entries as the set. */
  lemma {:induction false} ListingLength(keys: set<int>, order: seq<int>)
    requires IsListing(keys, order)
    ensures |order| == |keys|
    decreases |order|
  {
    if order == [] {
      assert forall k :: k !in keys;
    } else {
      var n := |order| - 1;
      var k := order[n];
      var init := order[..n];
      forall x | x in keys - {k} ensures x in init {
        var i :| 0 <= i < |order| && order[i] == x;
        assert i < n && init[i] == x;
      }
      ListingLength(keys - {k}, init);
    }
  }

  class IntegerCollection {
    var pkey: int
    var length: int
    var resources: map<int, Object>

    /** What every operation keeps, whatever the history: `pkey` and every key are int64 values. */
    ghost predicate Bounded()
      reads this
    {
      && InRange64(pkey)
      && forall k :: k in resources ==> InRange64(k)
    }

    /**
     * The store's intended invariant: `length` counts the records, and every key is a
     * positive id no larger than `pkey`, so the next auto id is free. The automatic
     * path of Create breaks it once `pkey` reaches the largest int64 (OverflowWalk).
     */
    ghost predicate Valid()
      reads this
    {
      && Bounded()
      && length == |resources|
      && 0 <= pkey
      && forall k :: k in resources ==> 1 <= k <= pkey
    }

    /** `IntegerStore`: an empty store whose counters start at zero. */
    constructor IntegerStore()
      ensures Valid() && pkey == 0 && length == 0 && resources == map[]
    {
      pkey := 0;
      length := 0;
      resources := map[];
    }

    /**
     * Create. A decode error is returned with nothing changed. An object without a
     * positive numeric id gets the next value of the int64 counter `pkey` (which wraps
     * to the smallest int64 after the largest); on a valid store below that limit the
     * id is free. A positive id already stored is DuplicateResource with nothing
     * changed; a new one is stored and raises `pkey` to it when larger. The stored
     * object's "id" becomes the int64 id, and the id is returned in decimal.
     */
    method Create(decoded: Decoded) returns (id: string, created: Option<Object>, err: Option<string>)
      requires Bounded()
      modifies this
      ensures Bounded()
      ensures decoded.DecodeError? ==>
        id == "" && created == None && err == Some(decoded.msg) && unchanged(this)
      ensures decoded.Decoded? && GivenId(decoded.obj) <= 0 ==>
        var n := NextKey(old(pkey));
        && pkey == n && length == old(length) + 1
        && resources == old(resources)[n := decoded.obj["id" := JInt(n)]]
        && id == FormatInt(n) && created == Some(decoded.obj["id" := JInt(n)]) && err == None
        && (old(Valid()) && old(pkey) < MaxInt64 ==> n == old(pkey) + 1 && n !in old(resources) && Valid())
      ensures decoded.Decoded? && GivenId(decoded.obj) > 0 && GivenId(decoded.obj) in old(resources) ==>
        var n := GivenId(decoded.obj);
        id == FormatInt(n) && created == None && err == Some(DuplicateResource) && unchanged(this)
      ensures decoded.Decoded? && GivenId(decoded.obj) > 0 && GivenId(decoded.obj) !in old(resources) ==>
        var n := GivenId(decoded.obj);
        && pkey == (if n > old(pkey) then n else old(pkey)) && length == old(length) + 1
        && resources == old(resources)[n := decoded.obj["id" := JInt(n)]]
        && id == FormatInt(n) && created == Some(decoded.obj["id" := JInt(n)]) && err == None
        && (old(Valid()) ==> Valid())
    {
      if decoded.DecodeError? {
        return "", None, Some(decoded.msg);
      }
      var clean := decoded.obj;
      var n := GivenId(clean);
      if n <= 0 {
        pkey := NextKey(pkey);
        n := pkey;
        clean := clean["id" := JInt(n)];
      } else {
        if n in resources {
          return FormatInt(n), None, Some(DuplicateResource);
        }
        if n > pkey {
          pkey := n;
        }
        clean := clean["id" := JInt(n)];
      }
      resources := resources[n := clean];
      length := length + 1;
      return FormatInt(n), Some(clean), None;
    }

    /**
     * Create as evidently intended: when the counter has no next positive value the
     * automatic path refuses with KeysExhausted instead of wrapping. Every successful
     * create then adds a record under a key that was free, readable at the returned
     * id, and the store stays valid.
     */
    method CreateGuarded(decoded: Decoded) returns (id: string, created: Option<Object>, err: Option<string>)
      requires Valid()
      modifies this
      ensures Valid()
      ensures err.Some? ==> created == None && unchanged(this)
      ensures decoded.DecodeError? ==> err == Some(decoded.msg)
      ensures decoded.Decoded? && GivenId(decoded.obj) <= 0 && old(pkey) == MaxInt64 ==> err == Some(KeysExhausted)
      ensures decoded.Decoded? && GivenId(decoded.obj) > 0 && GivenId(decoded.obj) in old(resources) ==>
        err == Some(DuplicateResource)
      ensures err.None? <==>
        decoded.Decoded? && (if GivenId(decoded.obj) <= 0 then old(pkey) < MaxInt64 else GivenId(decoded.obj) !in old(resources))
      ensures err.None? ==>
        && ParseKey(id).Some? && ParseKey(id).value !in old(resources) && created.Some?
        && ParseKey(id).value == (if GivenId(decoded.obj) <= 0 then old(pkey) + 1 else GivenId(decoded.obj))
        && resources == old(resources)[ParseKey(id).value := created.value]
        && length == old(length) + 1
    {
      if decoded.Decoded? && GivenId(decoded.obj) <= 0 && pkey == MaxInt64 {
        return "", None, Some(KeysExhausted);
      }
      id, created, err := Create(decoded);
      if err.None? {
        ParseFormatRoundTrip(if GivenId(decoded.obj) <= 0 then old(pkey) + 1 else GivenId(decoded.obj));
      }
    }

    /** Read: ImproperKey for a key that is not a decimal int64, DoesNotExist for a free id. */
    method Read(key: string) returns (r: Outcome<Object>)
      ensures r.Ok? || r.Err?
      ensures ParseKey(key).None? ==> r == Err(ImproperKey)
      ensures ParseKey(key).Some? && ParseKey(key).value !in resources ==> r == Err(DoesNotExist)
      ensures ParseKey(key).Some? && ParseKey(key).value in resources ==> r == Ok(resources[ParseKey(key).value])
    {
      var id := ParseKey(key);
      if id.None? {
        return Err(ImproperKey);
      }
      if id.value !in resources {
        return Err(DoesNotExist);
      }
      return Ok(resources[id.value]);
    }

    /**
     * Update. The key is parsed first (ImproperKey), then the body decoded; its "id"
     * must be a number whose int64 value is the key (IdMismatch), checked before the
     * record's existence (DoesNotExist). On success the whole record is replaced by
     * the decoded object, and `pkey` and `length` stay as they were.
     */
    method Update(key: string, decoded: Decoded) returns (r: Outcome<Object>)
      requires Bounded()
      modifies this
      ensures Bounded()
      ensures old(Valid()) ==> Valid()
      ensures r.Ok? || r.Err?
      ensures r.Err? ==> unchanged(this)
      ensures ParseKey(key).None? ==> r == Err(ImproperKey)
      ensures ParseKey(key).Some? && decoded.DecodeError? ==> r == Err(decoded.msg)
      ensures ParseKey(key).Some? && decoded.Decoded? ==>
        var n := ParseKey(key).value;
        var obj := decoded.obj;
        var matches := "id" in obj && obj["id"].JNumber? && ToInt64(obj["id"].n) == n;
        && (!matches ==> r == Err(IdMismatch))
        && (matches && n !in old(resources) ==> r == Err(DoesNotExist))
        && (matches && n in old(resources) ==>
              r == Ok(obj) && resources == old(resources)[n := obj] && pkey == old(pkey) && length == old(length))
    {
      var id := ParseKey(key);
      if id.None? {
        return Err(ImproperKey);
      }
      if decoded.DecodeError? {
        return Err(decoded.msg);
      }
      var clean := decoded.obj;
      if !("id" in clean && clean["id"].JNumber?) || id.value != ToInt64(clean["id"].n) {
        return Err(IdMismatch);
      }
      if id.value !in resources {
        return Err(DoesNotExist);
      }
      resources := resources[id.value := clean];
      return Ok(clean);
    }

    /** Delete: removes exactly that record and decrements `length`; errors change nothing. */
    method Delete(key: string) returns (err: Option<string>)
      requires Bounded()
      modifies this
      ensures Bounded()
      ensures old(Valid()) ==> Valid()
      ensures err.Some? ==> unchanged(this)
      ensures ParseKey(key).None? ==> err == Some(ImproperKey)
      ensures ParseKey(key).Some? && ParseKey(key).value !in old(resources) ==> err == Some(DoesNotExist)
      ensures ParseKey(key).Some? && ParseKey(key).value in old(resources) ==>
        && err == None && resources == old(resources) - {ParseKey(key).value}
        && length == old(length) - 1 && pkey == old(pkey)
    {
      var id := ParseKey(key);
      if id.None? {
        return Some(ImproperKey);
      }
      if id.value !in resources {
        return Some(DoesNotExist);
      }
      resources := resources - {id.value};
      length := length - 1;
      return None;
    }

    /**
     * List: every stored record exactly once, copied by index into a slice of `length`
     * entries. Go randomises map iteration, so the order is a parameter: any listing
     * of the keys.
     */
    method List(order: seq<int>) returns (output: seq<Object>)
      requires Valid() && IsListing(resources.Keys, order)
      ensures |output| == |order| == length
      ensures forall i :: 0 <= i < |output| ==> output[i] == resources[order[i]]
    {
      ListingLength(resources.Keys, order);
      var out := new Object[length](_ => map[]);
      var count := 0;
      while count < |order|
        invariant 0 <= count <= |order|
        invariant forall i :: 0 <= i < count ==> out[i] == resources[order[i]]
      {
        out[count] := resources[order[count]];
        count := count + 1;
      }
      output := out[..];
    }
  }

  /** A one-digit key parses as its digit. */
  lemma DigitKey(d: char)
    requires '0' <= d <= '9'
    ensures ParseKey([d]) == Some((d - '0') as int)
  {
    assert DigitsValue([d]) == (d - '0') as int by { assert [d][..0] == []; }
  }

  /** The store holds exactly the ids from `lo` to `hi`. */
  ghost predicate HoldsIds(c: IntegerCollection, lo: int, hi: int)
    reads c
  {
    forall k :: k in c.resources <==> lo <= k <= hi
  }

  /** The walk-through's first create: an object asking for id 2 is stored under it. */
  method ScenarioCreate(c: IntegerCollection, colonBlow: Object) returns (firstId: string)
    requires c.Valid() && c.pkey == 0 && c.resources == map[]
    requires colonBlow == map["id" := JNumber(2.0), "name" := JString("Colon Blow")]
    modifies c
    ensures firstId == "2"
    ensures c.Valid() && c.pkey == 2 && HoldsIds(c, 2, 2)
    ensures c.resources[2] == map["id" := JInt(2), "name" := JString("Colon Blow")]
  {
    assert GivenId(colonBlow) == 2;
    var created, err;
    firstId, created, err := c.Create(Decoded(colonBlow));
  }

  /** A second create of id 2 is refused; reading "2" gives the stored record. */
  method ScenarioDuplicateAndRead(c: IntegerCollection, colonBlow: Object) returns (duplicate: Option<string>, readBack: Outcome<Object>)
    requires c.Valid() && c.pkey == 3 && HoldsIds(c, 2, 3)
    requires colonBlow == map["id" := JNumber(2.0), "name" := JString("Colon Blow")]
    modifies c
    ensures duplicate == Some(DuplicateResource)
    ensures readBack == Ok(old(c.resources[2]))
    ensures c.Valid() && c.pkey == 3 && HoldsIds(c, 2, 3)
  {
    assert GivenId(colonBlow) == 2;
    DigitKey('2');
    var dupId, created;
    dupId, created, duplicate := c.Create(Decoded(colonBlow));
    readBack := c.Read("2");
  }

  /** Deleting "2" succeeds once and then fails; "3" is updated under its own id. */
  method ScenarioDeleteAndUpdate(c: IntegerCollection) returns (deleted: Option<string>, deletedAgain: Option<string>, updated: Outcome<Object>)
    requires c.Valid() && c.pkey == 3 && HoldsIds(c, 2, 3)
    modifies c
    ensures deleted == None && deletedAgain == Some(DoesNotExist)
    ensures updated.Ok?
    ensures c.Valid() && c.pkey == 3 && HoldsIds(c, 3, 3)
  {
    DigitKey('2');
    DigitKey('3');
    deleted := c.Delete("2");
    deletedAgain := c.Delete("2");
    var update := map["id" := JNumber(3.0), "name" := JString("Super Colon Blow")];
    assert ToInt64(update["id"].n) == 3;
    updated := c.Update("3", Decoded(update));
  }

  /** A create without an id takes the next id, one above the ids held; the others stay. */
  method ScenarioCreateNamed(c: IntegerCollection, name: string, lo: int) returns (id: string)
    requires c.Valid() && lo <= c.pkey < MaxInt64 && HoldsIds(c, lo, c.pkey)
    modifies c
    ensures id == FormatInt(c.pkey)
    ensures c.Valid() && c.pkey == old(c.pkey) + 1 && HoldsIds(c, lo, c.pkey)
    ensures forall k :: k in old(c.resources) ==> c.resources[k] == old(c.resources[k])
  {
    var obj := map["name" := JString(name)];
    assert "id" !in obj && GivenId(obj) == 0;
    var created, err;
    id, created, err := c.Create(Decoded(obj));
    assert c.resources == old(c.resources)[c.pkey := obj["id" := JInt(c.pkey)]];
  }

  /** The walk-through's last four creates, each without an id, on a store holding only id 3. */
  method ScenarioFill(c: IntegerCollection)
    requires c.Valid() && c.pkey == 3 && HoldsIds(c, 3, 3)
    modifies c
    ensures c.Valid() && HoldsIds(c, 3, 7)
  {
    var id := ScenarioCreateNamed(c, "Jam Hawkers", 3);
    id := ScenarioCreateNamed(c, "Super Bass-O-Matic 1976", 3);
    id := ScenarioCreateNamed(c, "Swill", 3);
    id := ScenarioCreateNamed(c, "HiberNol", 3);
  }

  /** Listing the five records left, in one of the orders Go may iterate them. */
  method ScenarioList(c: IntegerCollection) returns (listed: seq<Object>)
    requires c.Valid() && HoldsIds(c, 3, 7)
    ensures |listed| == 5
  {
    var order := [3, 4, 5, 6, 7];
    assert forall k :: k in c.resources ==> k == order[k - 3];
    listed := c.List(order);
  }

  /**
   * The package's collection walk-through: an explicit id 2, then an automatic id
   * that lands above it, a refused duplicate, a read, a delete that succeeds once,
   * an update, four more automatic ids, and a listing of the five records left.
   */
  method CollectionScenario() returns (firstId: string, secondId: string, duplicate: Option<string>,
                                       readBack: Outcome<Object>, deleted: Option<string>,
                                       deletedAgain: Option<string>, updated: Outcome<Object>,
                                       listed: seq<Object>)
    ensures firstId == "2" && secondId == "3"
    ensures duplicate == Some(DuplicateResource)
    ensures readBack == Ok(map["id" := JInt(2), "name" := JString("Colon Blow")])
    ensures deleted == None && deletedAgain == Some(DoesNotExist)
    ensures updated.Ok?
    ensures |listed| == 5
  {
    var c := new IntegerCollection.IntegerStore();
    var colonBlow := map["id" := JNumber(2.0), "name" := JString("Colon Blow")];
    firstId := ScenarioCreate(c, colonBlow);
    secondId := ScenarioCreateNamed(c, "New Shimmer", 2);
    duplicate, readBack := ScenarioDuplicateAndRead(c, colonBlow);
    deleted, deletedAgain, updated := ScenarioDeleteAndUpdate(c);
    ScenarioFill(c);
    listed := ScenarioList(c);
  }

  /** 2^63 - 1024: exactly a float64, so a JSON id of this size reaches Create unrounded. */
  const NearMax: int := 0x7FFF_FFFF_FFFF_FC00

  /**
   * First step of the int64 overflow: a create with id NearMax and then 1023 creates
   * without an id bring `pkey` to the largest int64, on a store that is still valid.
   */
  method RaiseToLimit(c: IntegerCollection)
    requires c.Valid() && c.pkey == 0 && c.resources == map[]
    modifies c
    ensures c.Valid() && c.pkey == MaxInt64
    ensures NearMax in c.resources && "name" in c.resources[NearMax]
    ensures forall k :: k in c.resources ==> NearMax <= k
  {
    var big := map["id" := JNumber(NearMax as real), "name" := JString("first")];
    assert GivenId(big) == NearMax;
    var id, created, err := c.Create(Decoded(big));
    var i := 0;
    while i < 1023
      invariant 0 <= i <= 1023
      invariant c.Valid() && c.pkey == NearMax + i
      invariant NearMax in c.resources && "name" in c.resources[NearMax]
      invariant forall k :: k in c.resources ==> NearMax <= k
    {
      var empty: Object := map[];
      id, created, err := c.Create(Decoded(empty));
      i := i + 1;
    }
  }

  /**
   * Second step: the next create without an id wraps `pkey` to the smallest int64 and
   * stores the record there, so a stored key now lies above `pkey`.
   */
  method WrapAround(c: IntegerCollection) returns (wrappedId: string)
    requires c.Valid() && c.pkey == MaxInt64
    requires NearMax in c.resources && "name" in c.resources[NearMax]
    requires forall k :: k in c.resources ==> NearMax <= k
    modifies c
    ensures wrappedId == FormatInt(MinInt64)
    ensures c.pkey == MinInt64 && MinInt64 in c.resources && NearMax in c.resources
    ensures !c.Valid()
    ensures c.Bounded() && c.length == |c.resources| && "name" in c.resources[NearMax]
    ensures forall k :: k in c.resources ==> k == MinInt64 || NearMax <= k
  {
    var empty: Object := map[];
    var created, err;
    wrappedId, created, err := c.Create(Decoded(empty));
  }

  /**
   * Third step: an explicit id 1024 below NearMax lifts `pkey` again, and 1024 creates
   * without an id then reach NearMax, overwrite the first record and leave `length`
   * one above the number of records.
   */
  method Overwrite(c: IntegerCollection)
    requires c.Bounded() && c.pkey == MinInt64 && c.length == |c.resources|
    requires NearMax in c.resources && "name" in c.resources[NearMax]
    requires forall k :: k in c.resources ==> k == MinInt64 || NearMax <= k
    modifies c
    ensures c.length == |c.resources| + 1
    ensures NearMax in c.resources && "name" !in c.resources[NearMax]
  {
    var low := map["id" := JNumber((NearMax - 1024) as real)];
    assert GivenId(low) == NearMax - 1024;
    var id, created, err := c.Create(Decoded(low));
    var i := 0;
    while i < 1023
      invariant 0 <= i <= 1023
      invariant c.Bounded() && c.pkey == NearMax - 1024 + i && c.length == |c.resources|
      invariant NearMax in c.resources && "name" in c.resources[NearMax]
      invariant forall k :: k in c.resources ==> k == MinInt64 || NearMax - 1024 <= k <= c.pkey || NearMax <= k
    {
      var empty: Object := map[];
      id, created, err := c.Create(Decoded(empty));
      i := i + 1;
    }
    var last: Object := map[];
    id, created, err := c.Create(Decoded(last));
  }

  /**
   * The overflow of Create's int64 counter, from an empty store: after 1025 creates
   * the counter has wrapped, and after 1025 more an automatic id lands on a stored
   * record, which is lost while `length` still counts it.
   */
  method OverflowWalk() returns (wrappedId: string, c: IntegerCollection)
    ensures wrappedId == FormatInt(MinInt64)
    ensures c.length == |c.resources| + 1 && !c.Valid()
    ensures NearMax in c.resources && "name" !in c.resources[NearMax]
  {
    c := new IntegerCollection.IntegerStore();
    RaiseToLimit(c);
    wrappedId := WrapAround(c);
    Overwrite(c);
  }
}
