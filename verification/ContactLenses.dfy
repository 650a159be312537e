/**
 Looking a property up and replacing a contact's variable values: the lookup has one candidate at most,
 and replacing obeys the laws of a lens exactly when no allowed name is empty.
 */
module ContactLenses {
  import opened Options
  import opened Text
  import opened ContactProperties

  /******* Looking up *******/

  /** In a normal bag only the canonical name itself matches a key that has one. */
  lemma OneCandidate(name: string, key: string, allowed: seq<string>)
    requires NormalKey(name, allowed) == name && Canonical(key, allowed).Some?
    ensures Matches(name, key, allowed) <==> name == Canonical(key, allowed).value
  {
    var c := Canonical(key, allowed).value;
    CanonicalTwice(key, allowed);
    TrimProperties(name);
    TrimProperties(key);
    if Matches(name, key, allowed) {
      if Lower(name) == Lower(c) {
        LowerKeepsSpace(name, c);
        assert Lower(Trim(name)) == Lower(Trim(c));
        TrimProperties(c);
      } else {
        TrimLower(name, key);
      }
    }
  }

  lemma {:induction false} TrimStartLower(a: string, b: string)
    requires Lower(a) == Lower(b)
    ensures Lower(TrimStart(a)) == Lower(TrimStart(b))
    decreases a
  {
    assert |a| == |b|;
    if a != [] {
      assert Lower(a)[0] == LowerChar(a[0]) && Lower(b)[0] == LowerChar(b[0]);
      if IsSpace(a[0]) {
        assert Lower(a[1..]) == Lower(a)[1..] && Lower(b[1..]) == Lower(b)[1..];
        TrimStartLower(a[1..], b[1..]);
      }
    }
  }

  lemma {:induction false} TrimEndLower(a: string, b: string)
    requires Lower(a) == Lower(b)
    ensures Lower(TrimEnd(a)) == Lower(TrimEnd(b))
    decreases a
  {
    assert |a| == |b|;
    if a != [] {
      var n := |a| - 1;
      assert Lower(a)[n] == LowerChar(a[n]) && Lower(b)[n] == LowerChar(b[n]);
      if IsSpace(a[n]) {
        assert Lower(a[..n]) == Lower(a)[..n] && Lower(b[..n]) == Lower(b)[..n];
        TrimEndLower(a[..n], b[..n]);
      }
    }
  }

  /** Trimming and folding case do not get in each other's way. */
  lemma TrimLower(a: string, b: string)
    requires Lower(a) == Lower(b)
    ensures Lower(Trim(a)) == Lower(Trim(b))
  {
    TrimStartLower(a, b);
    TrimEndLower(TrimStart(a), TrimStart(b));
  }

  /** Where one name alone can match, the first match is that name's entry, wherever it stands. */
  lemma {:induction false} FirstMatchIs(bag: Bag, key: string, allowed: seq<string>, name: string)
    requires forall i :: 0 <= i < |bag| ==> (Matches(bag[i].0, key, allowed) <==> bag[i].0 == name)
    ensures FirstMatch(bag, key, allowed) == if Has(bag, name) then Some((name, ValueAt(bag, name).value)) else None
    decreases bag
  {
    if bag != [] && bag[0].0 != name {
      assert forall i :: 0 <= i < |bag[1..]| ==> bag[1..][i] == bag[i + 1];
      FirstMatchIs(bag[1..], key, allowed, name);
    }
  }

  /**
   On a normal bag a key with a non-empty canonical name reads the value filed under that name, whatever
   the order of the entries; one whose canonical name is empty reads nothing.
   */
  lemma LookupIsByName(bag: Bag, key: string, allowed: seq<string>)
    requires Normal(bag, allowed) && Canonical(key, allowed).Some?
    ensures var c := Canonical(key, allowed).value;
            PropertyValue(bag, key, allowed) == if c != "" && Has(bag, c) then Shown(ValueAt(bag, c).value) else None
  {
    var c := Canonical(key, allowed).value;
    forall i | 0 <= i < |bag|
      ensures Matches(bag[i].0, key, allowed) <==> bag[i].0 == c
    {
      OneCandidate(bag[i].0, key, allowed);
    }
    FirstMatchIs(bag, key, allowed, c);
  }

  /** What reading a name comes to: text and numbers as they are, truth values in words, nothing else. */
  ghost predicate ReadsEntry(bag: Bag, name: string, shown: Option<string>) {
    && (forall text :: (name, Words(text)) in bag ==> shown == Some(text))
    && (forall text :: (name, Number(text)) in bag ==> shown == Some(text))
    && ((name, Flag(true)) in bag ==> shown == Some("true"))
    && ((name, Flag(false)) in bag ==> shown == Some("false"))
    && (forall json :: (name, Other(json)) in bag ==> shown == None)
    && ((forall value :: (name, value) !in bag) ==> shown == None)
  }

  lemma ShownAt(bag: Bag, name: string, shown: Option<string>)
    requires Distinct(bag)
    requires shown == if Has(bag, name) then Shown(ValueAt(bag, name).value) else None
    ensures ReadsEntry(bag, name, shown)
  {
    forall value | (name, value) in bag
      ensures Has(bag, name) && ValueAt(bag, name) == Some(value)
    {
      var i :| 0 <= i < |bag| && bag[i] == (name, value);
      IndexIs(bag, name, i);
    }
    if Has(bag, name) {
      assert bag[Index(bag, name)] == (name, ValueAt(bag, name).value);
    }
  }

  /** On a normal bag a key with a non-empty canonical name reads the entry of that name. */
  lemma LookupReads(bag: Bag, key: string, allowed: seq<string>)
    requires Normal(bag, allowed) && Canonical(key, allowed).Some? && Canonical(key, allowed).value != ""
    ensures ReadsEntry(bag, Canonical(key, allowed).value, PropertyValue(bag, key, allowed))
  {
    LookupIsByName(bag, key, allowed);
    ShownAt(bag, Canonical(key, allowed).value, PropertyValue(bag, key, allowed));
  }

  /** A key without one reads the entry of the one name in the bag that differs from it in case alone. */
  lemma LookupReadsPlain(bag: Bag, key: string, allowed: seq<string>, name: string)
    requires Distinct(bag) && Canonical(key, allowed).None? && name != "" && Lower(name) == Lower(key)
    requires forall i :: 0 <= i < |bag| && Lower(bag[i].0) == Lower(key) ==> bag[i].0 == name
    ensures ReadsEntry(bag, name, PropertyValue(bag, key, allowed))
  {
    FirstMatchIs(bag, key, allowed, name);
    ShownAt(bag, name, PropertyValue(bag, key, allowed));
  }

  /** The canonical name of a key is the first allowed one that differs from the trimmed key in case alone. */
  lemma {:induction false} CanonicalIs(key: string, allowed: seq<string>)
    ensures match Canonical(key, allowed)
            case Some(name) =>
              exists i :: 0 <= i < |allowed| && allowed[i] == name && Lower(name) == Lower(Trim(key)) &&
                          forall j :: 0 <= j < i ==> Lower(allowed[j]) != Lower(Trim(key))
            case None => forall j :: 0 <= j < |allowed| ==> Lower(allowed[j]) != Lower(Trim(key))
    decreases allowed
  {
    if allowed != [] && Lower(allowed[0]) != Lower(Trim(key)) {
      var rest := allowed[1..];
      CanonicalIs(key, rest);
      assert forall j :: 0 < j < |allowed| ==> allowed[j] == rest[j - 1];
      if Canonical(key, rest).Some? {
        var i :| 0 <= i < |rest| && rest[i] == Canonical(key, rest).value && Lower(rest[i]) == Lower(Trim(key)) &&
                 forall j :: 0 <= j < i ==> Lower(rest[j]) != Lower(Trim(key));
        assert allowed[i + 1] == rest[i];
      }
    }
  }

  /******* Bags as maps *******/

  function MapOf(bag: Bag): map<string, Value> {
    if bag == [] then map[]
    else
      var last := bag[|bag| - 1];
      MapOf(bag[..|bag| - 1])[last.0 := last.1]
  }

  lemma {:induction false} MapOfIs(bag: Bag)
    requires Distinct(bag)
    ensures forall k :: k in MapOf(bag) <==> Has(bag, k)
    ensures forall k :: k in MapOf(bag) ==> Some(MapOf(bag)[k]) == ValueAt(bag, k)
    decreases bag
  {
    if bag != [] {
      var front, last := bag[..|bag| - 1], bag[|bag| - 1];
      MapOfIs(front);
      assert bag == front + [last];
      forall k
        ensures k in MapOf(bag) <==> Has(bag, k)
        ensures k in MapOf(bag) ==> Some(MapOf(bag)[k]) == ValueAt(bag, k)
      {
        HasAppend(front, last, k);
        if k == last.0 {
          IndexIs(bag, k, |bag| - 1);
        } else if Has(front, k) {
          IndexIs(bag, k, Index(front, k));
        }
      }
    }
  }

  /******* When the order of the entries decides *******/

  predicate IsLetter(c: char) {
    LowerChar(c) != c || UpperChar(c) != c
  }

  predicate HasLetter(s: string) {
    exists i :: 0 <= i < |s| && IsLetter(s[i])
  }

  /** Normal bags with the same entries read the same, in whatever order they hold them. */
  ghost predicate OrderIndependent(key: string, allowed: seq<string>) {
    forall a, b :: Normal(a, allowed) && Normal(b, allowed) && MapOf(a) == MapOf(b) ==>
      PropertyValue(a, key, allowed) == PropertyValue(b, key, allowed)
  }

  /** Only the key itself folds to a key without letters. */
  lemma OnlyItself(name: string, key: string)
    requires !HasLetter(key)
    ensures Lower(name) == Lower(key) <==> name == key
  {
    if Lower(name) == Lower(key) {
      assert |name| == |key|;
      forall i | 0 <= i < |key|
        ensures name[i] == key[i]
      {
        assert Lower(name)[i] == Lower(key)[i] && !IsLetter(key[i]);
      }
    }
  }

  /** Which name a key reads, when one name alone can match it. */
  lemma OneNameOnly(key: string, allowed: seq<string>) returns (name: string)
    requires Canonical(key, allowed).Some? || !HasLetter(key)
    ensures forall other :: NormalKey(other, allowed) == other ==> (Matches(other, key, allowed) <==> other == name)
  {
    name := if Canonical(key, allowed).Some? then Canonical(key, allowed).value else key;
    forall other | NormalKey(other, allowed) == other
      ensures Matches(other, key, allowed) <==> other == name
    {
      if Canonical(key, allowed).Some? {
        OneCandidate(other, key, allowed);
      } else {
        OnlyItself(other, key);
      }
    }
  }

  /** Two names that fold to the same key but differ. */
  lemma TwoSpellings(key: string) returns (a: string, b: string)
    requires HasLetter(key)
    ensures a != b && a != "" && b != "" && Lower(a) == Lower(key) && Lower(b) == Lower(key)
  {
    var i :| 0 <= i < |key| && IsLetter(key[i]);
    a, b := key[i := LowerChar(key[i])], key[i := UpperChar(key[i])];
    assert a[i] != b[i];
    assert LowerChar(UpperChar(key[i])) == LowerChar(key[i]) == LowerChar(LowerChar(key[i]));
    forall j | 0 <= j < |key|
      ensures Lower(a)[j] == Lower(key)[j] == Lower(b)[j]
    {
    }
  }

  /** Both spellings are normal names when the key has no canonical one. */
  lemma SpellingIsNormal(name: string, key: string, allowed: seq<string>)
    requires Canonical(key, allowed).None? && Lower(name) == Lower(key)
    ensures NormalKey(name, allowed) == name
  {
    TrimLower(name, key);
  }

  lemma OneEntry(e: Entry)
    ensures MapOf([e]) == map[e.0 := e.1]
  {
    assert [e][..0] == [];
    assert MapOf([]) == map[];
    assert MapOf([e]) == MapOf([])[e.0 := e.1];
  }

  lemma TwoEntries(a: Entry, b: Entry)
    requires a.0 != b.0
    ensures MapOf([a, b]) == map[a.0 := a.1, b.0 := b.1] == MapOf([b, a])
  {
    OneEntry(a);
    OneEntry(b);
    assert [a, b][..1] == [a] && [b, a][..1] == [b];
    assert MapOf([a, b]) == MapOf([a])[b.0 := b.1] && MapOf([b, a]) == MapOf([b])[a.0 := a.1];
  }

  /** The order of a normal bag's entries decides nothing about a key just when it has a canonical name or no letter. */
  lemma OrderIndependentWhen(key: string, allowed: seq<string>)
    ensures OrderIndependent(key, allowed) <==> Canonical(key, allowed).Some? || !HasLetter(key)
  {
    if Canonical(key, allowed).Some? || !HasLetter(key) {
      var name := OneNameOnly(key, allowed);
      forall a, b | Normal(a, allowed) && Normal(b, allowed) && MapOf(a) == MapOf(b)
        ensures PropertyValue(a, key, allowed) == PropertyValue(b, key, allowed)
      {
        FirstMatchIs(a, key, allowed, name);
        FirstMatchIs(b, key, allowed, name);
        MapOfIs(a);
        MapOfIs(b);
        assert name in MapOf(a) <==> name in MapOf(b);
      }
    } else {
      var x, y := TwoSpellings(key);
      SpellingIsNormal(x, key, allowed);
      SpellingIsNormal(y, key, allowed);
      var a, b: Entry := (x, Flag(true)), (y, Flag(false));
      TwoEntries(a, b);
      assert Normal([a, b], allowed) && Normal([b, a], allowed);
      assert FirstMatch([a, b], key, allowed) == Some(a) && FirstMatch([b, a], key, allowed) == Some(b);
      assert PropertyValue([a, b], key, allowed) != PropertyValue([b, a], key, allowed);
    }
  }

  /******* Maps and assignment *******/

  lemma MapOfPut(bag: Bag, key: string, value: Value)
    requires Distinct(bag)
    ensures MapOf(Put(bag, key, value)) == MapOf(bag)[key := value]
  {
    var after := Put(bag, key, value);
    PutDistinct(bag, key, value);
    MapOfIs(bag);
    MapOfIs(after);
    forall k
      ensures k in MapOf(after) <==> k in MapOf(bag)[key := value]
      ensures k in MapOf(after) ==> MapOf(after)[k] == MapOf(bag)[key := value][k]
    {
      PutValue(bag, key, value, k);
    }
  }

  lemma {:induction false} MapOfPutAll(bag: Bag, writes: Bag)
    requires Distinct(bag)
    ensures MapOf(PutAll(bag, writes)) == MapOf(bag) + MapOf(writes)
    decreases writes
  {
    if writes != [] {
      var front, last := writes[..|writes| - 1], writes[|writes| - 1];
      MapOfPutAll(bag, front);
      PutAllDistinct(bag, front);
      MapOfPut(PutAll(bag, front), last.0, last.1);
    }
  }

  /** The bag, normalised, as a map. */
  function Normalized(bag: Bag, allowed: seq<string>): map<string, Value> {
    MapOf(Normalize(bag, allowed))
  }

  predicate IsVariable(key: string, allowed: seq<string>) {
    Canonical(key, allowed).Some?
  }

  function VariablePart(m: map<string, Value>, allowed: seq<string>): map<string, Value> {
    map k | k in m && IsVariable(k, allowed) :: m[k]
  }

  function Kept(m: map<string, Value>, allowed: seq<string>): map<string, Value> {
    map k | k in m && !Dropped(k, allowed) :: m[k]
  }

  lemma KeptPut(m: map<string, Value>, k: string, v: Value, allowed: seq<string>)
    ensures Kept(m[k := v], allowed) == if Dropped(k, allowed) then Kept(m, allowed) else Kept(m, allowed)[k := v]
  {
  }

  lemma {:induction false} MapOfWithout(bag: Bag, allowed: seq<string>)
    ensures MapOf(WithoutVariables(bag, allowed)) == Kept(MapOf(bag), allowed)
    decreases bag
  {
    if bag != [] {
      var front, last := bag[..|bag| - 1], bag[|bag| - 1];
      MapOfWithout(front, allowed);
      KeptPut(MapOf(front), last.0, last.1, allowed);
      var kept := WithoutVariables(front, allowed);
      assert (kept + [last])[..|kept|] == kept && kept + [] == kept;
    }
  }

  lemma {:induction false} WithoutDistinct(bag: Bag, allowed: seq<string>)
    requires Distinct(bag)
    ensures Distinct(WithoutVariables(bag, allowed))
    decreases bag
  {
    if bag != [] {
      var front, last := bag[..|bag| - 1], bag[|bag| - 1];
      WithoutDistinct(front, allowed);
      WithoutVariablesMembers(front, allowed);
      var kept := WithoutVariables(front, allowed);
      forall i | 0 <= i < |kept|
        ensures kept[i].0 != last.0
      {
        assert kept[i] in front;
      }
    }
  }

  lemma WithoutIsNormal(bag: Bag, allowed: seq<string>)
    requires Normal(bag, allowed)
    ensures Normal(WithoutVariables(bag, allowed), allowed)
  {
    WithoutDistinct(bag, allowed);
    WithoutVariablesMembers(bag, allowed);
    var left := WithoutVariables(bag, allowed);
    forall i | 0 <= i < |left|
      ensures NormalKey(left[i].0, allowed) == left[i].0
    {
      assert left[i] in bag;
    }
  }

  /** What replacing comes to: the old entries that are not dropped, with the new ones over them. */
  lemma ReplaceIs(existing: Bag, values: Bag, allowed: seq<string>)
    ensures MapOf(Replace(existing, values, allowed)) ==
            Kept(Normalized(existing, allowed), allowed) + Normalized(values, allowed)
    ensures Normal(Replace(existing, values, allowed), allowed)
  {
    var normal := Normalize(existing, allowed);
    NormalizeIsNormal(existing, allowed);
    WithoutIsNormal(normal, allowed);
    var left := WithoutVariables(normal, allowed);
    NormalIsFixed(left, allowed);
    MapOfWithout(normal, allowed);
    MapOfPutAll(left, Normalize(values, allowed));
    MergeIsNormal(left, values, allowed);
  }

  /** The names in a normalised bag are their own normal names. */
  lemma NormalizedNames(bag: Bag, allowed: seq<string>)
    ensures forall k :: k in Normalized(bag, allowed) ==> NormalKey(k, allowed) == k
  {
    NormalizeIsNormal(bag, allowed);
    MapOfIs(Normalize(bag, allowed));
    var n := Normalize(bag, allowed);
    forall k | k in MapOf(n)
      ensures NormalKey(k, allowed) == k
    {
      assert n[Index(n, k)].0 == k;
    }
  }

  lemma ReplaceNormalized(existing: Bag, values: Bag, allowed: seq<string>)
    ensures Normalized(Replace(existing, values, allowed), allowed) == MapOf(Replace(existing, values, allowed))
  {
    ReplaceIs(existing, values, allowed);
    NormalIsFixed(Replace(existing, values, allowed), allowed);
  }

  /** A name that is its own: the code drops it just when it is a variable other than the empty one. */
  lemma DroppedIs(k: string, allowed: seq<string>)
    requires NormalKey(k, allowed) == k
    ensures Dropped(k, allowed) <==> IsVariable(k, allowed) && k != ""
  {
  }

  lemma EmptyIsVariable(allowed: seq<string>)
    ensures IsVariable("", allowed) <==> "" in allowed
    ensures NormalKey("", allowed) == ""
  {
    assert Trim("") == "" && Lower("") == "";
    FindIs(allowed, "");
    if "" in allowed {
      var i :| 0 <= i < |allowed| && allowed[i] == "";
      assert Lower(allowed[i]) == "";
    }
    if Find(allowed, "").Some? {
      assert |Lower(Find(allowed, "").value)| == |Find(allowed, "").value|;
    }
  }

  /******* The laws *******/

  /** What was put is what is read: the variable part of the result is that of the new values. */
  ghost predicate ReadsWhatWasPut(allowed: seq<string>) {
    forall existing, values ::
      VariablePart(MapOf(Replace(existing, values, allowed)), allowed) ==
      VariablePart(Normalized(values, allowed), allowed)
  }

  /** A second replacement overrides a first one that held only variables. */
  ghost predicate SecondPutWins(allowed: seq<string>) {
    forall existing, first, second ::
      OnlyVariables(first, allowed) ==>
        MapOf(Replace(Replace(existing, first, allowed), second, allowed)) == MapOf(Replace(existing, second, allowed))
  }

  ghost predicate OnlyVariables(bag: Bag, allowed: seq<string>) {
    forall k :: k in Normalized(bag, allowed) ==> IsVariable(k, allowed)
  }

  lemma KeptHasNoVariables(bag: Bag, allowed: seq<string>)
    requires "" !in allowed
    ensures VariablePart(Kept(Normalized(bag, allowed), allowed), allowed) == map[]
  {
    NormalizedNames(bag, allowed);
    EmptyIsVariable(allowed);
    forall k | k in Normalized(bag, allowed)
      ensures Dropped(k, allowed) <==> IsVariable(k, allowed)
    {
      DroppedIs(k, allowed);
    }
  }

  lemma OneEmptyEntry(allowed: seq<string>, value: Value)
    ensures Normalized([("", value)], allowed) == map["" := value]
  {
    EmptyIsVariable(allowed);
    var bag: Bag := [("", value)];
    assert Renamed(bag, allowed) == bag;
    PutAllOnEmpty(bag);
    assert bag[..0] == [];
    assert MapOf(bag) == MapOf(bag[..0])["" := value];
  }

  lemma NormalizedOfNothing(allowed: seq<string>)
    ensures Normalized([], allowed) == map[]
  {
    assert Renamed([], allowed) == [];
  }

  lemma ReadsWhatWasPutWhen(allowed: seq<string>)
    ensures ReadsWhatWasPut(allowed) <==> "" !in allowed
  {
    if "" !in allowed {
      forall existing, values
        ensures VariablePart(MapOf(Replace(existing, values, allowed)), allowed) ==
                VariablePart(Normalized(values, allowed), allowed)
      {
        ReplaceIs(existing, values, allowed);
        KeptHasNoVariables(existing, allowed);
        VariablesOfSum(Kept(Normalized(existing, allowed), allowed), Normalized(values, allowed), allowed);
      }
    } else {
      var existing: Bag := [("", Flag(true))];
      OneEmptyEntry(allowed, Flag(true));
      NormalizedOfNothing(allowed);
      EmptyIsVariable(allowed);
      DroppedIs("", allowed);
      ReplaceIs(existing, [], allowed);
      assert "" in Kept(Normalized(existing, allowed), allowed);
      assert "" in VariablePart(MapOf(Replace(existing, [], allowed)), allowed);
    }
  }

  lemma VariablesOfSum(a: map<string, Value>, b: map<string, Value>, allowed: seq<string>)
    ensures VariablePart(a + b, allowed) == VariablePart(a, allowed) + VariablePart(b, allowed)
  {
  }

  /** Putting back a bag's own variables gives its normal form, with any allowed names. */
  lemma PutBack(existing: Bag, own: Bag, allowed: seq<string>)
    requires Normalized(own, allowed) == VariablePart(Normalized(existing, allowed), allowed)
    ensures MapOf(Replace(existing, own, allowed)) == Normalized(existing, allowed)
  {
    ReplaceIs(existing, own, allowed);
    NormalizedNames(existing, allowed);
  }

  /** An allowed empty name is put by the first put and not taken away by the second. */
  lemma EmptyNameStays(allowed: seq<string>, first: Bag)
    requires "" in allowed && first == [("", Flag(true))]
    ensures OnlyVariables(first, allowed) && "" in MapOf(Replace([], first, allowed))
    ensures "" in MapOf(Replace(Replace([], first, allowed), [], allowed))
  {
    OneEmptyEntry(allowed, Flag(true));
    NormalizedOfNothing(allowed);
    EmptyIsVariable(allowed);
    DroppedIs("", allowed);
    ReplaceIs([], first, allowed);
    ReplaceNormalized([], first, allowed);
    ReplaceIs(Replace([], first, allowed), [], allowed);
  }

  lemma SecondPutLoses(allowed: seq<string>)
    requires "" in allowed
    ensures !SecondPutWins(allowed)
  {
    var first: Bag := [("", Flag(true))];
    EmptyNameStays(allowed, first);
    NormalizedOfNothing(allowed);
    ReplaceIs([], [], allowed);
    assert "" !in MapOf(Replace([], [], allowed));
  }

  lemma SecondPutWinsWhen(allowed: seq<string>)
    ensures SecondPutWins(allowed) <==> "" !in allowed
  {
    if "" !in allowed {
      forall existing, first, second | OnlyVariables(first, allowed)
        ensures MapOf(Replace(Replace(existing, first, allowed), second, allowed)) ==
                  MapOf(Replace(existing, second, allowed))
      {
        SecondPut(existing, first, second, allowed);
      }
    } else {
      SecondPutLoses(allowed);
    }
  }

  lemma SecondPut(existing: Bag, first: Bag, second: Bag, allowed: seq<string>)
    requires "" !in allowed && OnlyVariables(first, allowed)
    ensures MapOf(Replace(Replace(existing, first, allowed), second, allowed)) ==
              MapOf(Replace(existing, second, allowed))
  {
    var mid := Replace(existing, first, allowed);
    ReplaceIs(existing, first, allowed);
    ReplaceNormalized(existing, first, allowed);
    ReplaceIs(mid, second, allowed);
    ReplaceIs(existing, second, allowed);
    NormalizedNames(first, allowed);
    EmptyIsVariable(allowed);
    var e, f := Normalized(existing, allowed), Normalized(first, allowed);
    forall k | k in f
      ensures Dropped(k, allowed)
    {
      DroppedIs(k, allowed);
    }
    KeptForgets(e, f, allowed);
  }

  lemma KeptForgets(e: map<string, Value>, f: map<string, Value>, allowed: seq<string>)
    requires forall k :: k in f ==> Dropped(k, allowed)
    ensures Kept(Kept(e, allowed) + f, allowed) == Kept(e, allowed)
  {
  }

  /** Every other property survives unless the new values name it, and nothing else appears. */
  lemma OthersSurvive(existing: Bag, values: Bag, k: string, allowed: seq<string>)
    requires !IsVariable(k, allowed)
    ensures var e, v := Normalized(existing, allowed), Normalized(values, allowed);
            var r := MapOf(Replace(existing, values, allowed));
            && (k in r <==> k in e || k in v)
            && (k in v ==> r[k] == v[k])
            && (k in e && k !in v ==> r[k] == e[k])
  {
    ReplaceIs(existing, values, allowed);
  }
}
