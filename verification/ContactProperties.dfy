/**
 Contact property bags: JavaScript objects as lists of entries with distinct keys, in insertion order.
 Names are compared without case and surrounding white space, and a list of allowed variables says how
 each is spelled.
 */
module ContactProperties {
  import opened Options
  import opened Text

  /** Numbers are kept as String() shows them; null, objects and arrays are Other. */
  datatype Value = Words(text: string) | Number(shown: string) | Flag(on: bool) | Other(json: string)

  type Entry = (string, Value)
  type Bag = seq<Entry>

  /******* Objects *******/

  ghost predicate Distinct(bag: Bag) {
    forall i, j :: 0 <= i < j < |bag| ==> bag[i].0 != bag[j].0
  }

  function Index(bag: Bag, key: string): (i: nat)
    ensures i <= |bag|
    ensures i < |bag| ==> bag[i].0 == key
    ensures forall j :: 0 <= j < i ==> bag[j].0 != key
  {
    if bag == [] || bag[0].0 == key then 0 else 1 + Index(bag[1..], key)
  }

  predicate Has(bag: Bag, key: string) {
    Index(bag, key) < |bag|
  }

  function ValueAt(bag: Bag, key: string): Option<Value> {
    if Has(bag, key) then Some(bag[Index(bag, key)].1) else None
  }

  /** Assignment to a property: in place when there is one, at the end otherwise. */
  function Put(bag: Bag, key: string, value: Value): Bag {
    var i := Index(bag, key);
    if i < |bag| then bag[i := (key, value)] else bag + [(key, value)]
  }

  /** Assignments in order; also what spreading one object over another does. */
  function PutAll(bag: Bag, writes: Bag): Bag {
    if writes == [] then bag
    else
      var last := writes[|writes| - 1];
      Put(PutAll(bag, writes[..|writes| - 1]), last.0, last.1)
  }

  /******* The five functions *******/

  function Canonical(key: string, allowed: seq<string>): Option<string> {
    Find(allowed, Lower(Trim(key)))
  }

  function Find(allowed: seq<string>, lower: string): Option<string> {
    if allowed == [] then None
    else if Lower(allowed[0]) == lower then Some(allowed[0])
    else Find(allowed[1..], lower)
  }

  /** The name a key is filed under. */
  function NormalKey(key: string, allowed: seq<string>): string {
    match Canonical(key, allowed)
    case Some(name) => name
    case None => key
  }

  function Renamed(bag: Bag, allowed: seq<string>): (r: Bag)
    ensures |r| == |bag|
    ensures forall i :: 0 <= i < |bag| ==> r[i] == (NormalKey(bag[i].0, allowed), bag[i].1)
  {
    seq(|bag|, i requires 0 <= i < |bag| => (NormalKey(bag[i].0, allowed), bag[i].1))
  }

  function Normalize(bag: Bag, allowed: seq<string>): Bag {
    PutAll([], Renamed(bag, allowed))
  }

  method NormalizeProperties(properties: Bag, allowed: seq<string>) returns (normalized: Bag)
    ensures normalized == Normalize(properties, allowed)
  {
    normalized := [];
    ghost var renamed := Renamed(properties, allowed);
    for i := 0 to |properties|
      invariant normalized == PutAll([], renamed[..i])
    {
      var key, value := properties[i].0, properties[i].1;
      var canonicalKey := Canonical(key, allowed);
      normalized := Put(normalized, if canonicalKey.Some? then canonicalKey.value else key, value);
      OneMoreWrite(renamed, i);
    }
    assert renamed[..|properties|] == renamed;
  }

  lemma OneMoreWrite(writes: Bag, i: nat)
    requires i < |writes|
    ensures PutAll([], writes[..i + 1]) == Put(PutAll([], writes[..i]), writes[i].0, writes[i].1)
  {
    assert writes[..i + 1][..i] == writes[..i];
  }

  predicate Matches(candidate: string, key: string, allowed: seq<string>) {
    || Lower(candidate) == Lower(key)
    || (Canonical(key, allowed).Some? && Lower(candidate) == Lower(Canonical(key, allowed).value))
  }

  /** The first entry whose key matches. */
  function FirstMatch(bag: Bag, key: string, allowed: seq<string>): Option<Entry> {
    if bag == [] then None
    else if Matches(bag[0].0, key, allowed) then Some(bag[0])
    else FirstMatch(bag[1..], key, allowed)
  }

  function Shown(value: Value): Option<string> {
    match value
    case Words(text) => Some(text)
    case Number(shown) => Some(shown)
    case Flag(on) => Some(if on then "true" else "false")
    case Other(_) => None
  }

  /** An empty matching key counts as none. */
  function PropertyValue(bag: Bag, key: string, allowed: seq<string>): Option<string> {
    match FirstMatch(bag, key, allowed)
    case Some((name, value)) => if name != "" then Shown(value) else None
    case None => None
  }

  function Merge(existing: Bag, incoming: Bag, allowed: seq<string>): Bag {
    PutAll(Normalize(existing, allowed), Normalize(incoming, allowed))
  }

  /** Whether the code takes a key for a variable's; an empty canonical name does not count. */
  predicate Dropped(key: string, allowed: seq<string>) {
    Canonical(key, allowed).Some? && Canonical(key, allowed).value != ""
  }

  function WithoutVariables(bag: Bag, allowed: seq<string>): Bag {
    if bag == [] then []
    else
      var last := bag[|bag| - 1];
      WithoutVariables(bag[..|bag| - 1], allowed) + (if Dropped(last.0, allowed) then [] else [last])
  }

  function Replace(existing: Bag, values: Bag, allowed: seq<string>): Bag {
    Merge(WithoutVariables(Normalize(existing, allowed), allowed), values, allowed)
  }

  function Removed(bag: Bag, key: string): Bag {
    var i := Index(bag, key);
    if i < |bag| then bag[..i] + bag[i + 1..] else bag
  }

  method ReplaceVariableValues(existing: Bag, values: Bag, allowed: seq<string>) returns (result: Bag)
    ensures result == Replace(existing, values, allowed)
  {
    var normalized := NormalizeProperties(existing, allowed);
    PutAllDistinct([], Renamed(existing, allowed));
    normalized := DeleteVariables(normalized, allowed);
    var left := NormalizeProperties(normalized, allowed);
    var right := NormalizeProperties(values, allowed);
    result := PutAll(left, right);
  }

  /** Its loop: deletes the keys one by one from the object whose keys were listed before. */
  method DeleteVariables(properties: Bag, allowed: seq<string>) returns (left: Bag)
    requires Distinct(properties)
    ensures left == WithoutVariables(properties, allowed)
  {
    left := properties;
    assert properties[..0] == [];
    for i := 0 to |properties|
      invariant left == WithoutVariables(properties[..i], allowed) + properties[i..]
    {
      WithoutStep(properties, i, allowed);
      if Dropped(properties[i].0, allowed) {
        left := Removed(left, properties[i].0);
      }
    }
    assert properties[..|properties|] == properties;
  }

  lemma WithoutStep(keys: Bag, i: nat, allowed: seq<string>)
    requires i < |keys| && Distinct(keys)
    ensures var now := WithoutVariables(keys[..i], allowed) + keys[i..];
            WithoutVariables(keys[..i + 1], allowed) + keys[i + 1..] ==
            if Dropped(keys[i].0, allowed) then Removed(now, keys[i].0) else now
  {
    var before, e, after := WithoutVariables(keys[..i], allowed), keys[i], keys[i + 1..];
    assert keys[i..] == [e] + after;
    assert keys[..i + 1][..i] == keys[..i];
    if Dropped(e.0, allowed) {
      KeptDiffer(keys, i, allowed);
      RemovedMiddle(before, e, after);
      assert before + [] == before;
    } else {
      assert (before + [e]) + after == before + ([e] + after);
    }
  }

  lemma KeptDiffer(keys: Bag, i: nat, allowed: seq<string>)
    requires i < |keys| && Distinct(keys)
    ensures forall x :: x in WithoutVariables(keys[..i], allowed) ==> x.0 != keys[i].0
  {
    WithoutVariablesMembers(keys[..i], allowed);
    forall x | x in WithoutVariables(keys[..i], allowed)
      ensures x.0 != keys[i].0
    {
      var j :| 0 <= j < i && keys[..i][j] == x;
      assert keys[j] == x;
    }
  }

  lemma {:induction false} WithoutVariablesMembers(bag: Bag, allowed: seq<string>)
    ensures forall e :: e in WithoutVariables(bag, allowed) <==> e in bag && !Dropped(e.0, allowed)
    decreases bag
  {
    if bag != [] {
      var front, last := bag[..|bag| - 1], bag[|bag| - 1];
      WithoutVariablesMembers(front, allowed);
      assert bag == front + [last];
    }
  }

  lemma RemovedMiddle(before: Bag, e: Entry, after: Bag)
    requires forall x :: x in before ==> x.0 != e.0
    ensures Removed(before + ([e] + after), e.0) == before + after
  {
    var all := before + ([e] + after);
    assert all[|before|] == e;
    forall j | 0 <= j < |before|
      ensures all[j].0 != e.0
    {
      assert all[j] in before;
    }
    assert Index(all, e.0) == |before|;
    assert all[..|before|] == before && all[|before| + 1..] == after;
  }

  /******* Objects: laws of assignment *******/

  lemma IndexIs(bag: Bag, key: string, i: nat)
    requires i < |bag| && bag[i].0 == key && Distinct(bag)
    ensures Index(bag, key) == i
  {
  }

  lemma PutDistinct(bag: Bag, key: string, value: Value)
    requires Distinct(bag)
    ensures Distinct(Put(bag, key, value))
    ensures forall k :: Has(Put(bag, key, value), k) <==> k == key || Has(bag, k)
  {
    var after := Put(bag, key, value);
    forall k
      ensures Has(after, k) <==> k == key || Has(bag, k)
    {
      var i, j := Index(bag, k), Index(after, k);
      if Has(bag, k) {
        assert after[i].0 == k;
      }
      if k == key {
        assert after[Index(bag, key)].0 == k;
      }
      if Has(after, k) && k != key {
        assert bag[j].0 == k;
      }
    }
  }

  lemma PutTwice(bag: Bag, key: string, u: Value, v: Value)
    requires Distinct(bag)
    ensures Put(Put(bag, key, u), key, v) == Put(bag, key, v)
  {
    PutDistinct(bag, key, u);
    var i := Index(bag, key);
    IndexIs(Put(bag, key, u), key, i);
  }

  lemma PutCommutes(bag: Bag, k: string, v: Value, j: string, w: Value)
    requires Distinct(bag) && Has(bag, k) && j != k
    ensures Put(Put(bag, k, v), j, w) == Put(Put(bag, j, w), k, v)
  {
    PutDistinct(bag, k, v);
    PutDistinct(bag, j, w);
    var i := Index(bag, k);
    IndexIs(Put(bag, j, w), k, i);
    var n := Index(bag, j);
    if n < |bag| {
      IndexIs(Put(bag, k, v), j, n);
    }
  }

  lemma {:induction false} PutAllDistinct(bag: Bag, writes: Bag)
    requires Distinct(bag)
    ensures Distinct(PutAll(bag, writes))
    ensures forall k :: Has(PutAll(bag, writes), k) <==> Has(bag, k) || Has(writes, k)
    decreases writes
  {
    if writes != [] {
      var front, last := writes[..|writes| - 1], writes[|writes| - 1];
      PutAllDistinct(bag, front);
      PutDistinct(PutAll(bag, front), last.0, last.1);
      forall k
        ensures Has(writes, k) <==> Has(front, k) || k == last.0
      {
        HasAppend(front, last, k);
        assert front + [last] == writes;
      }
    }
  }

  lemma HasAppend(front: Bag, last: Entry, k: string)
    ensures Has(front + [last], k) <==> Has(front, k) || k == last.0
  {
    var all := front + [last];
    if Has(front, k) {
      assert all[Index(front, k)].0 == k;
    }
    if k == last.0 {
      assert all[|front|].0 == k;
    }
    if Has(all, k) && Index(all, k) < |front| {
      assert front[Index(all, k)].0 == k;
    }
  }

  lemma LastWriteTwice(x: Bag, y: Bag, k: string, v: Value)
    requires Distinct(x) && Distinct(y) && y != [] && y[|y| - 1].0 == k
    ensures PutAll(x, Put(y, k, v)) == Put(PutAll(x, y), k, v)
  {
    var front, last := y[..|y| - 1], y[|y| - 1];
    var after := Put(y, k, v);
    IndexIs(y, k, |y| - 1);
    assert after[..|y| - 1] == front && after[|y| - 1] == (k, v);
    PutAllDistinct(x, front);
    PutTwice(PutAll(x, front), k, last.1, v);
  }

  lemma UpdateFront(y: Bag, i: nat, e: Entry)
    requires i < |y| - 1
    ensures y[i := e] == y[..|y| - 1][i := e] + [y[|y| - 1]]
  {
  }

  lemma FrontIs(y: Bag, k: string)
    requires Distinct(y) && Has(y, k) && y[|y| - 1].0 != k
    ensures Has(y[..|y| - 1], k) && Index(y[..|y| - 1], k) == Index(y, k)
  {
    var front, i := y[..|y| - 1], Index(y, k);
    assert front[i] == y[i];
    IndexIs(front, k, i);
  }

  lemma EarlierPut(y: Bag, k: string, v: Value)
    requires Distinct(y) && Has(y, k) && y[|y| - 1].0 != k
    ensures Has(y[..|y| - 1], k)
    ensures Put(y, k, v) == Put(y[..|y| - 1], k, v) + [y[|y| - 1]]
  {
    FrontIs(y, k);
    UpdateFront(y, Index(y, k), (k, v));
  }

  /** Spreading an object that was just assigned to is assigning after spreading. */
  lemma {:induction false} PutAllPut(x: Bag, y: Bag, k: string, v: Value)
    requires Distinct(x) && Distinct(y)
    ensures PutAll(x, Put(y, k, v)) == Put(PutAll(x, y), k, v)
    decreases y
  {
    if !Has(y, k) {
      assert Put(y, k, v)[..|y|] == y;
    } else if y[|y| - 1].0 == k {
      LastWriteTwice(x, y, k, v);
    } else {
      var front, last := y[..|y| - 1], y[|y| - 1];
      EarlierPut(y, k, v);
      assert Put(y, k, v)[..|y| - 1] == Put(front, k, v);
      PutAllDistinct(x, front);
      PutAllPut(x, front, k, v);
      PutCommutes(PutAll(x, front), k, v, last.0, last.1);
    }
  }

  lemma {:induction false} PutAllTwice(x: Bag, y: Bag, writes: Bag)
    requires Distinct(x) && Distinct(y)
    ensures PutAll(x, PutAll(y, writes)) == PutAll(PutAll(x, y), writes)
    decreases writes
  {
    if writes != [] {
      var front, last := writes[..|writes| - 1], writes[|writes| - 1];
      PutAllTwice(x, y, front);
      PutAllDistinct(y, front);
      PutAllPut(x, PutAll(y, front), last.0, last.1);
    }
  }

  lemma {:induction false} PutAllAppend(bag: Bag, first: Bag, second: Bag)
    ensures PutAll(bag, first + second) == PutAll(PutAll(bag, first), second)
    decreases second
  {
    if second == [] {
      assert first + second == first;
    } else {
      var front := second[..|second| - 1];
      assert (first + second)[..|first + second| - 1] == first + front;
      PutAllAppend(bag, first, front);
    }
  }

  /** Building an object from entries with distinct keys gives those entries. */
  lemma {:induction false} PutAllOnEmpty(bag: Bag)
    requires Distinct(bag)
    ensures PutAll([], bag) == bag
    decreases bag
  {
    if bag != [] {
      var front, last := bag[..|bag| - 1], bag[|bag| - 1];
      PutAllOnEmpty(front);
      assert bag == front + [last];
    }
  }

  /******* Canonical names *******/

  lemma {:induction false} FindIs(allowed: seq<string>, lower: string)
    ensures Find(allowed, lower).Some? <==> exists i :: 0 <= i < |allowed| && Lower(allowed[i]) == lower
    ensures Find(allowed, lower).Some? ==>
              Find(allowed, lower).value in allowed && Lower(Find(allowed, lower).value) == lower
    decreases allowed
  {
    if allowed != [] {
      FindIs(allowed[1..], lower);
      if i :| 0 <= i < |allowed| && Lower(allowed[i]) == lower {
        if i > 0 {
          assert Lower(allowed[1..][i - 1]) == lower;
        }
      }
      if Find(allowed, lower).Some? {
        assert Find(allowed, lower).value in [allowed[0]] + allowed[1..];
        assert allowed == [allowed[0]] + allowed[1..];
      }
    }
  }

  lemma LowerKeepsSpace(a: string, b: string)
    requires Lower(a) == Lower(b)
    ensures Trimmed(a) <==> Trimmed(b)
  {
    assert |a| == |b|;
    if a != [] {
      assert Lower(a)[0] == LowerChar(a[0]) && Lower(b)[0] == LowerChar(b[0]);
      assert Lower(a)[|a| - 1] == LowerChar(a[|a| - 1]) && Lower(b)[|b| - 1] == LowerChar(b[|b| - 1]);
    }
  }

  /** A canonical name is its own canonical name, has no white space around it and folds to the key's. */
  lemma CanonicalTwice(key: string, allowed: seq<string>)
    requires Canonical(key, allowed).Some?
    ensures var name := Canonical(key, allowed).value;
            Canonical(name, allowed) == Some(name) && Trimmed(name) && name in allowed &&
                Lower(name) == Lower(Trim(key))
  {
    var name := Canonical(key, allowed).value;
    FindIs(allowed, Lower(Trim(key)));
    TrimProperties(key);
    LowerKeepsSpace(name, Trim(key));
    TrimProperties(name);
  }

  lemma NormalKeyTwice(key: string, allowed: seq<string>)
    ensures NormalKey(NormalKey(key, allowed), allowed) == NormalKey(key, allowed)
  {
    if Canonical(key, allowed).Some? {
      CanonicalTwice(key, allowed);
    }
  }

  /******* Normal bags *******/

  ghost predicate Normal(bag: Bag, allowed: seq<string>) {
    Distinct(bag) && forall i :: 0 <= i < |bag| ==> NormalKey(bag[i].0, allowed) == bag[i].0
  }

  lemma {:induction false} PutAllNormal(bag: Bag, writes: Bag, allowed: seq<string>)
    requires Normal(bag, allowed) && forall i :: 0 <= i < |writes| ==> NormalKey(writes[i].0, allowed) == writes[i].0
    ensures Normal(PutAll(bag, writes), allowed)
    decreases writes
  {
    if writes != [] {
      var front, last := writes[..|writes| - 1], writes[|writes| - 1];
      PutAllNormal(bag, front, allowed);
      PutDistinct(PutAll(bag, front), last.0, last.1);
    }
  }

  lemma NormalizeIsNormal(bag: Bag, allowed: seq<string>)
    ensures Normal(Normalize(bag, allowed), allowed)
  {
    forall i | 0 <= i < |bag|
      ensures NormalKey(Renamed(bag, allowed)[i].0, allowed) == Renamed(bag, allowed)[i].0
    {
      NormalKeyTwice(bag[i].0, allowed);
    }
    PutAllNormal([], Renamed(bag, allowed), allowed);
  }

  /** Normal bags are exactly those that normalising leaves as they are, order included. */
  lemma NormalIsFixed(bag: Bag, allowed: seq<string>)
    ensures Normal(bag, allowed) <==> Normalize(bag, allowed) == bag
  {
    if Normal(bag, allowed) {
      assert Renamed(bag, allowed) == bag;
      PutAllOnEmpty(bag);
    } else {
      NormalizeIsNormal(bag, allowed);
    }
  }

  lemma NormalizeTwice(bag: Bag, allowed: seq<string>)
    ensures Normalize(Normalize(bag, allowed), allowed) == Normalize(bag, allowed)
  {
    NormalizeIsNormal(bag, allowed);
    NormalIsFixed(Normalize(bag, allowed), allowed);
  }

  /** The value filed under a name: the last entry's whose key has that normal name. */
  function LastValue(bag: Bag, name: string, allowed: seq<string>): Option<Value> {
    if bag == [] then None
    else
      var last := bag[|bag| - 1];
      if NormalKey(last.0, allowed) == name then Some(last.1) else LastValue(bag[..|bag| - 1], name, allowed)
  }

  lemma PutValue(bag: Bag, key: string, value: Value, k: string)
    requires Distinct(bag)
    ensures ValueAt(Put(bag, key, value), k) == if k == key then Some(value) else ValueAt(bag, k)
  {
    PutDistinct(bag, key, value);
    var after := Put(bag, key, value);
    if k == key {
      IndexIs(after, k, Index(bag, key));
    } else if Has(bag, k) {
      IndexIs(after, k, Index(bag, k));
    }
  }

  /** Last write wins, for keys that differ only in case and surrounding white space too. */
  lemma {:induction false} LastWriteWins(bag: Bag, name: string, allowed: seq<string>)
    ensures ValueAt(Normalize(bag, allowed), name) == LastValue(bag, name, allowed)
    decreases bag
  {
    if bag != [] {
      var front, last := bag[..|bag| - 1], bag[|bag| - 1];
      LastWriteWins(front, name, allowed);
      var renamed := Renamed(bag, allowed);
      assert renamed[..|bag| - 1] == Renamed(front, allowed);
      PutAllDistinct([], Renamed(front, allowed));
      PutValue(Normalize(front, allowed), NormalKey(last.0, allowed), last.1, name);
    }
  }

  lemma RenamedAppend(a: Bag, b: Bag, allowed: seq<string>)
    ensures Renamed(a + b, allowed) == Renamed(a, allowed) + Renamed(b, allowed)
  {
  }

  /** Merging is normalising the entries of both. */
  lemma MergeIsNormalize(a: Bag, b: Bag, allowed: seq<string>)
    ensures Merge(a, b, allowed) == Normalize(a + b, allowed)
  {
    var left, right := Renamed(a, allowed), Renamed(b, allowed);
    PutAllDistinct([], left);
    var na := PutAll([], left);
    PutAllTwice(na, [], right);
    assert PutAll(na, []) == na;
    PutAllAppend([], left, right);
    RenamedAppend(a, b, allowed);
  }

  /** So it is already normal. */
  lemma MergeIsNormal(a: Bag, b: Bag, allowed: seq<string>)
    ensures Normal(Merge(a, b, allowed), allowed)
  {
    MergeIsNormalize(a, b, allowed);
    NormalizeIsNormal(a + b, allowed);
  }

  /** Normalising a part first changes nothing. */
  lemma NormalizePart(a: Bag, b: Bag, allowed: seq<string>)
    ensures Normalize(Normalize(a, allowed) + b, allowed) == Normalize(a + b, allowed)
    ensures Normalize(a + Normalize(b, allowed), allowed) == Normalize(a + b, allowed)
  {
    MergeIsNormalize(a, b, allowed);
    MergeIsNormalize(Normalize(a, allowed), b, allowed);
    MergeIsNormalize(a, Normalize(b, allowed), allowed);
    NormalizeTwice(a, allowed);
    NormalizeTwice(b, allowed);
  }

  /** Merging three bags is normalising the entries of all three, however it is grouped. */
  lemma MergeThree(a: Bag, b: Bag, c: Bag, allowed: seq<string>)
    ensures Merge(Merge(a, b, allowed), c, allowed) == Normalize(a + b + c, allowed)
    ensures Merge(a, Merge(b, c, allowed), allowed) == Normalize(a + (b + c), allowed)
  {
    var ab, bc := Merge(a, b, allowed), Merge(b, c, allowed);
    MergeIsNormalize(a, b, allowed);
    MergeIsNormalize(b, c, allowed);
    MergeIsNormalize(ab, c, allowed);
    MergeIsNormalize(a, bc, allowed);
    NormalizePart(a + b, c, allowed);
    NormalizePart(a, b + c, allowed);
  }

  lemma AppendAssociative(a: Bag, b: Bag, c: Bag)
    ensures a + b + c == a + (b + c)
  {
  }

  lemma MergeAssociative(a: Bag, b: Bag, c: Bag, allowed: seq<string>)
    ensures Merge(Merge(a, b, allowed), c, allowed) == Merge(a, Merge(b, c, allowed), allowed)
  {
    MergeThree(a, b, c, allowed);
    AppendAssociative(a, b, c);
  }
}
