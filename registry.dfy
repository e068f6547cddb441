/**
 * The registration store: DataManager.data, a Python dict from plate to
 * owner id, and the register / list / remove commands that change or read
 * it. The dict is an insertion-ordered sequence of (plate, owner) entries
 * with distinct plates, which is how a Python dict iterates.
 */
module Registry {
  import opened Wrappers
  import opened Plates

  /** MAX_PLATES: the most plates one user may register. */
  const MaxPlates := 4

  type Owner = int
  type Entry = (string, Owner)

  function Keys(e: seq<Entry>): seq<string> {
    seq(|e|, i requires 0 <= i < |e| => e[i].0)
  }

  /** No plate appears twice: the dict has unique keys. */
  ghost predicate DistinctKeys(e: seq<Entry>) {
    forall i, j :: 0 <= i < j < |e| ==> e[i].0 != e[j].0
  }

  /** `k in data` and `data[k]`: the owner stored for k, if k is a key. */
  function Get(e: seq<Entry>, k: string): (r: Option<Owner>)
    ensures r.Some? ==> (k, r.value) in e
    ensures r.None? ==> forall i :: 0 <= i < |e| ==> e[i].0 != k
  {
    if e == [] then None
    else if e[0].0 == k then Some(e[0].1)
    else Get(e[1..], k)
  }

  /** data[k] = v: an existing key keeps its position, a new key goes last. */
  function Assign(e: seq<Entry>, k: string, v: Owner): (r: seq<Entry>)
    ensures |e| <= |r| <= |e| + 1
    ensures (k, v) in r
  {
    if e == [] then [(k, v)]
    else if e[0].0 == k then [(k, v)] + e[1..]
    else [e[0]] + Assign(e[1..], k, v)
  }

  /** del data[k] (and nothing when k is absent). */
  function Delete(e: seq<Entry>, k: string): (r: seq<Entry>)
    ensures |r| <= |e|
    ensures forall i :: 0 <= i < |r| ==> r[i].0 != k
  {
    if e == [] then []
    else if e[0].0 == k then Delete(e[1..], k)
    else [e[0]] + Delete(e[1..], k)
  }

  /** [p for p, uid in data.items() if uid == u] */
  function OwnedBy(e: seq<Entry>, u: Owner): (ps: seq<string>)
    ensures |ps| <= |e|
    ensures forall i :: 0 <= i < |ps| ==> (ps[i], u) in e
  {
    if e == [] then []
    else (if e[0].1 == u then [e[0].0] else []) + OwnedBy(e[1..], u)
  }

  /** No owner holds more than MaxPlates plates. */
  ghost predicate WithinLimit(e: seq<Entry>) {
    forall u :: |OwnedBy(e, u)| <= MaxPlates
  }

  /** Every stored plate matches the plate pattern. */
  ghost predicate AllKeysValid(e: seq<Entry>) {
    forall i :: 0 <= i < |e| ==> IsValidPlate(e[i].0)
  }

  lemma DistinctTail(e: seq<Entry>)
    requires e != [] && DistinctKeys(e)
    ensures DistinctKeys(e[1..]) && e[0].0 !in Keys(e[1..])
  {
  }

  /** Get finds exactly the owner recorded for the plate. */
  lemma GetFindsEntry(e: seq<Entry>, k: string, v: Owner)
    requires DistinctKeys(e)
    ensures Get(e, k) == Some(v) <==> exists i :: 0 <= i < |e| && e[i] == (k, v)
  {
  }

  /** Get is None exactly for plates that are not keys. */
  lemma {:induction false} GetAbsent(e: seq<Entry>, k: string)
    ensures Get(e, k) == None <==> k !in Keys(e)
  {
    if e != [] {
      GetAbsent(e[1..], k);
      assert Keys(e) == [e[0].0] + Keys(e[1..]);
    }
  }

  /** Assigning to a key already at position i overwrites that entry in place. */
  lemma {:induction false} AssignExisting(e: seq<Entry>, i: nat, k: string, v: Owner)
    requires DistinctKeys(e) && i < |e| && e[i].0 == k
    ensures Assign(e, k, v) == e[i := (k, v)]
  {
    if i > 0 {
      DistinctTail(e);
      AssignExisting(e[1..], i - 1, k, v);
      assert e[i := (k, v)] == [e[0]] + e[1..][i - 1 := (k, v)];
    }
  }

  /** Assigning to a new key appends the entry at the end. */
  lemma {:induction false} AssignNew(e: seq<Entry>, k: string, v: Owner)
    requires k !in Keys(e)
    ensures Assign(e, k, v) == e + [(k, v)]
  {
    if e != [] {
      assert Keys(e) == [e[0].0] + Keys(e[1..]);
      AssignNew(e[1..], k, v);
      assert e + [(k, v)] == [e[0]] + (e[1..] + [(k, v)]);
    }
  }

  /** After an assignment the key maps to the new owner; every other key is untouched. */
  lemma {:induction false} AssignGet(e: seq<Entry>, k: string, v: Owner, k': string)
    ensures Get(Assign(e, k, v), k') == if k' == k then Some(v) else Get(e, k')
  {
    if e != [] && e[0].0 != k {
      AssignGet(e[1..], k, v, k');
    }
  }

  /** Assignment keeps the keys distinct. */
  lemma {:induction false} AssignDistinct(e: seq<Entry>, k: string, v: Owner)
    requires DistinctKeys(e)
    ensures DistinctKeys(Assign(e, k, v))
  {
    if k in Keys(e) {
      var i :| 0 <= i < |e| && Keys(e)[i] == k;
      AssignExisting(e, i, k, v);
    } else {
      AssignNew(e, k, v);
      assert forall i :: 0 <= i < |e| ==> Keys(e)[i] == e[i].0;
    }
  }

  /** Assignment gives its owner at most one more plate and nobody else any. */
  lemma {:induction false} AssignCount(e: seq<Entry>, k: string, v: Owner, u: Owner)
    ensures |OwnedBy(Assign(e, k, v), u)| <= |OwnedBy(e, u)| + (if u == v then 1 else 0)
  {
    if e != [] && e[0].0 != k {
      AssignCount(e[1..], k, v, u);
    }
  }

  /** Deleting a key at position i removes exactly that entry. */
  lemma {:induction false} DeleteExisting(e: seq<Entry>, i: nat, k: string)
    requires DistinctKeys(e) && i < |e| && e[i].0 == k
    ensures Delete(e, k) == e[..i] + e[i + 1..]
  {
    DistinctTail(e);
    if i == 0 {
      DeleteAbsent(e[1..], k);
    } else {
      DeleteExisting(e[1..], i - 1, k);
      assert e[..i] == [e[0]] + e[1..][..i - 1];
      assert e[i + 1..] == e[1..][i..];
    }
  }

  /** Deleting an absent key changes nothing. */
  lemma {:induction false} DeleteAbsent(e: seq<Entry>, k: string)
    requires k !in Keys(e)
    ensures Delete(e, k) == e
  {
    if e != [] {
      assert Keys(e) == [e[0].0] + Keys(e[1..]);
      DeleteAbsent(e[1..], k);
      assert e == [e[0]] + e[1..];
    }
  }

  /** After a deletion the key is gone; every other key is untouched. */
  lemma {:induction false} DeleteGet(e: seq<Entry>, k: string, k': string)
    ensures Get(Delete(e, k), k') == if k' == k then None else Get(e, k')
  {
    if e != [] {
      DeleteGet(e[1..], k, k');
    }
  }

  /** Deletion keeps the remaining entries, so the keys stay distinct and valid. */
  lemma {:induction false} DeleteSubsequence(e: seq<Entry>, k: string)
    ensures forall x :: x in Delete(e, k) ==> x in e && x.0 != k
  {
    if e != [] {
      DeleteSubsequence(e[1..], k);
    }
  }

  lemma DeleteDistinct(e: seq<Entry>, k: string)
    requires DistinctKeys(e)
    ensures DistinctKeys(Delete(e, k))
  {
    if k in Keys(e) {
      var i :| 0 <= i < |e| && Keys(e)[i] == k;
      DeleteExisting(e, i, k);
      var d := e[..i] + e[i + 1..];
      forall a, b | 0 <= a < b < |d| ensures d[a].0 != d[b].0 {
        var a' := if a < i then a else a + 1;
        var b' := if b < i then b else b + 1;
        assert d[a] == e[a'] && d[b] == e[b'];
      }
    } else {
      DeleteAbsent(e, k);
    }
  }

  /** Deletion never gives anyone more plates. */
  lemma {:induction false} DeleteCount(e: seq<Entry>, k: string, u: Owner)
    ensures |OwnedBy(Delete(e, k), u)| <= |OwnedBy(e, u)|
  {
    if e != [] {
      DeleteCount(e[1..], k, u);
    }
  }

  /** The list command shows exactly the caller's plates. */
  lemma {:induction false} OwnedByMembers(e: seq<Entry>, u: Owner, p: string)
    ensures p in OwnedBy(e, u) <==> exists i :: 0 <= i < |e| && e[i] == (p, u)
  {
    if e != [] {
      OwnedByMembers(e[1..], u, p);
      if exists i :: 0 <= i < |e[1..]| && e[1..][i] == (p, u) {
        var i :| 0 <= i < |e[1..]| && e[1..][i] == (p, u);
        assert e[i + 1] == (p, u);
      }
      if exists i :: 0 <= i < |e| && e[i] == (p, u) {
        var i :| 0 <= i < |e| && e[i] == (p, u);
        if i > 0 { assert e[1..][i - 1] == (p, u); }
      }
    }
  }

  /** The list keeps store order: listing a concatenation lists each part in turn. */
  lemma {:induction false} OwnedByConcat(e1: seq<Entry>, e2: seq<Entry>, u: Owner)
    ensures OwnedBy(e1 + e2, u) == OwnedBy(e1, u) + OwnedBy(e2, u)
  {
    if e1 != [] {
      assert (e1 + e2)[1..] == e1[1..] + e2;
      OwnedByConcat(e1[1..], e2, u);
    } else {
      assert e1 + e2 == e2;
    }
  }

  /** A plate registered to another owner never appears in the caller's list. */
  lemma NeverListsOthers(e: seq<Entry>, u: Owner, p: string, v: Owner)
    requires DistinctKeys(e) && Get(e, p) == Some(v) && v != u
    ensures p !in OwnedBy(e, u)
  {
  }

  /** A registered plate is listed for its new owner and for nobody else. */
  lemma RegisteredPlateListed(e: seq<Entry>, k: string, u: Owner, w: Owner)
    requires DistinctKeys(e) && w != u
    ensures k in OwnedBy(Assign(e, k, u), u)
    ensures k !in OwnedBy(Assign(e, k, u), w)
  {
  }

  /** A removed plate is listed for nobody. */
  lemma RemovedPlateUnlisted(e: seq<Entry>, k: string, u: Owner)
    ensures k !in OwnedBy(Delete(e, k), u)
  {
  }

  /** A registration by an owner below the limit keeps every owner within the limit. */
  lemma AssignKeepsLimit(e: seq<Entry>, k: string, u: Owner)
    requires WithinLimit(e) && |OwnedBy(e, u)| < MaxPlates
    ensures WithinLimit(Assign(e, k, u))
  {
    forall o ensures |OwnedBy(Assign(e, k, u), o)| <= MaxPlates {
      AssignCount(e, k, u, o);
    }
  }

  /** Storing a valid plate keeps every stored plate valid. */
  lemma {:induction false} AssignKeepsKeysValid(e: seq<Entry>, k: string, u: Owner)
    requires AllKeysValid(e) && IsValidPlate(k)
    ensures AllKeysValid(Assign(e, k, u))
  {
    if e != [] && e[0].0 != k {
      AssignKeepsKeysValid(e[1..], k, u);
    }
  }

  /** A removal keeps both store invariants. */
  lemma DeleteKeepsInvariants(e: seq<Entry>, k: string)
    requires WithinLimit(e) && AllKeysValid(e)
    ensures WithinLimit(Delete(e, k)) && AllKeysValid(Delete(e, k))
  {
    forall o ensures |OwnedBy(Delete(e, k), o)| <= MaxPlates {
      DeleteCount(e, k, o);
    }
    DeleteSubsequence(e, k);
  }

  datatype RegisterReply = Registered(plate: string) | LimitReached | BadFormat

  datatype ListReply = NothingRegistered | Listed(plates: seq<string>)

  /**
   * DataManager: the live dict and the JSON file it is saved to. `file` is
   * None until something is written; save_data overwrites it with the whole
   * dict.
   */
  class DataManager {
    var data: seq<Entry>
    var file: Option<seq<Entry>>

    ghost predicate Valid()
      reads this
    {
      DistinctKeys(data)
    }

    /**
     * The invariants register establishes: every plate matches the pattern
     * and no owner has more than MaxPlates plates. Data loaded from the file
     * is not checked against them.
     */
    ghost predicate Consistent()
      reads this
    {
      AllKeysValid(data) && WithinLimit(data)
    }

    /** __init__ and load_data: the file's object if there is one, else {}. */
    constructor (stored: Option<seq<Entry>>)
      requires stored.Some? ==> DistinctKeys(stored.value)
      ensures Valid()
      ensures file == stored
      ensures data == if stored.Some? then stored.value else []
    {
      data := if stored.Some? then stored.value else [];
      file := stored;
    }

    /** save_data: the file now holds exactly the dict. */
    method Save()
      modifies this`file
      ensures file == Some(data)
    {
      file := Some(data);
    }

    /**
     * register: the limit is checked first, on the caller's current plates;
     * then the normalised text must match the pattern; then the plate is
     * assigned to the caller (taking it from any previous owner) and saved.
     */
    method Register(uid: Owner, raw: string) returns (r: RegisterReply)
      requires Valid()
      modifies this
      ensures Valid()
      ensures |OwnedBy(old(data), uid)| >= MaxPlates ==> r == LimitReached
      ensures |OwnedBy(old(data), uid)| < MaxPlates && !IsValidPlate(Normalize(raw)) ==> r == BadFormat
      ensures |OwnedBy(old(data), uid)| < MaxPlates && IsValidPlate(Normalize(raw)) ==> r == Registered(Normalize(raw))
      ensures !r.Registered? ==> data == old(data) && file == old(file)
      ensures r.Registered? ==>
        && |OwnedBy(old(data), uid)| < MaxPlates
        && r.plate == Normalize(raw) && IsValidPlate(r.plate)
        && data == Assign(old(data), r.plate, uid)
        && file == Some(data)
      ensures old(Consistent()) ==> Consistent()
    {
      var userPlates := OwnedBy(data, uid);
      if |userPlates| >= MaxPlates {
        return LimitReached;
      }
      var plate := Normalize(raw);
      if !IsValidPlate(plate) {
        return BadFormat;
      }
      if Consistent() {
        AssignKeepsLimit(data, plate, uid);
        AssignKeepsKeysValid(data, plate, uid);
      }
      AssignDistinct(data, plate, uid);
      data := Assign(data, plate, uid);
      Save();
      r := Registered(plate);
    }

    /** list_plates: the caller's plates in store order, or the "none registered" reply. */
    method ListPlates(uid: Owner) returns (r: ListReply)
      ensures r.NothingRegistered? <==> forall i :: 0 <= i < |data| ==> data[i].1 != uid
      ensures r.Listed? ==> r.plates == OwnedBy(data, uid)
      ensures r.Listed? ==> forall p :: p in r.plates <==> (p, uid) in data
    {
      var userPlates := OwnedBy(data, uid);
      forall p ensures p in userPlates <==> (p, uid) in data {
        OwnedByMembers(data, uid, p);
      }
      if |userPlates| == 0 {
        assert forall i :: 0 <= i < |data| ==> data[i] in data;
        return NothingRegistered;
      }
      assert userPlates[0] in userPlates;
      r := Listed(userPlates);
    }

    /**
     * remove_plate: the text is normalised but not checked against the
     * pattern; the entry goes only when the plate is a key owned by the
     * caller, and the dict is then saved.
     */
    method RemovePlate(uid: Owner, raw: string) returns (removed: bool)
      requires Valid()
      modifies this
      ensures Valid()
      ensures removed <==> Get(old(data), Normalize(raw)) == Some(uid)
      ensures removed ==> data == Delete(old(data), Normalize(raw)) && file == Some(data)
      ensures !removed ==> data == old(data) && file == old(file)
      ensures old(Consistent()) ==> Consistent()
    {
      var plate := Normalize(raw);
      removed := Get(data, plate) == Some(uid);
      if removed {
        DeleteDistinct(data, plate);
        if Consistent() {
          DeleteKeepsInvariants(data, plate);
        }
        data := Delete(data, plate);
        Save();
      }
    }
  }
}
