/**
 The canonical form of a request, from which its idempotency hash is made:
 object keys in a fixed order at every depth.
 */
module RequestHash {
  import opened Results

  datatype Json =
    | Null
    | Bool(value: bool)
    | Number(text: string)
    | Text(text: string)
    | List(items: seq<Json>)
    | Object(entries: seq<Entry>)

  datatype Entry = Entry(key: string, value: Json)

  /** A strict order on keys that tells any two different keys apart. */
  ghost predicate TotalOrder(less: (string, string) -> bool) {
    && (forall a :: !less(a, a))
    && (forall a, b, c | less(a, b) && less(b, c) :: less(a, c))
    && (forall a, b | a != b :: less(a, b) || less(b, a))
  }

  // ---------------------------------------------------------------- sorting entries

  /** After every entry whose key does not come later, as a stable sort does. */
  function Insert(less: (string, string) -> bool, entry: Entry, sorted: seq<Entry>): (r: seq<Entry>)
    ensures multiset(r) == multiset(sorted) + multiset{entry}
  {
    if sorted == [] then [entry]
    else if less(entry.key, sorted[|sorted| - 1].key) then
      assert sorted == sorted[..|sorted| - 1] + [sorted[|sorted| - 1]];
      Insert(less, entry, sorted[..|sorted| - 1]) + [sorted[|sorted| - 1]]
    else sorted + [entry]
  }

  function Sort(less: (string, string) -> bool, entries: seq<Entry>): (r: seq<Entry>)
    ensures multiset(r) == multiset(entries)
  {
    if entries == [] then []
    else
      assert entries == entries[..|entries| - 1] + [entries[|entries| - 1]];
      Insert(less, entries[|entries| - 1], Sort(less, entries[..|entries| - 1]))
  }

  predicate Ascending(less: (string, string) -> bool, entries: seq<Entry>) {
    forall i, j | 0 <= i < j < |entries| :: less(entries[i].key, entries[j].key)
  }

  predicate DistinctKeys(entries: seq<Entry>) {
    forall i, j | 0 <= i < j < |entries| :: entries[i].key != entries[j].key
  }

  lemma {:induction false} InsertAscends(less: (string, string) -> bool, entry: Entry, sorted: seq<Entry>)
    requires TotalOrder(less) && Ascending(less, sorted) && forall e | e in sorted :: e.key != entry.key
    ensures Ascending(less, Insert(less, entry, sorted))
  {
    if sorted != [] && less(entry.key, sorted[|sorted| - 1].key) {
      var front, last := sorted[..|sorted| - 1], sorted[|sorted| - 1];
      InsertAscends(less, entry, front);
      forall e | e in Insert(less, entry, front) ensures less(e.key, last.key) {
        assert e in multiset(Insert(less, entry, front));
        assert e in front || e == entry;
      }
    }
  }

  lemma {:induction false} SortAscends(less: (string, string) -> bool, entries: seq<Entry>)
    requires TotalOrder(less) && DistinctKeys(entries)
    ensures Ascending(less, Sort(less, entries))
  {
    if entries != [] {
      var front, last := entries[..|entries| - 1], entries[|entries| - 1];
      SortAscends(less, front);
      forall e | e in Sort(less, front) ensures e.key != last.key {
        assert e in multiset(Sort(less, front));
        assert e in front;
      }
      InsertAscends(less, last, Sort(less, front));
    }
  }

  lemma {:induction false} SortKeepsSorted(less: (string, string) -> bool, entries: seq<Entry>)
    requires TotalOrder(less) && Ascending(less, entries)
    ensures Sort(less, entries) == entries
  {
    if entries != [] {
      var front, last := entries[..|entries| - 1], entries[|entries| - 1];
      SortKeepsSorted(less, front);
      if |entries| > 1 {
        assert less(entries[|entries| - 2].key, last.key);
        assert !less(last.key, entries[|entries| - 2].key);
      }
    }
  }

  /** Ascending lists with the same keys are in step. */
  lemma {:induction false} SameKeysSameOrder(less: (string, string) -> bool, some: seq<Entry>, other: seq<Entry>)
    requires TotalOrder(less) && Ascending(less, some) && Ascending(less, other)
    requires forall key :: HasKey(some, key) <==> HasKey(other, key)
    ensures |some| == |other| && forall i | 0 <= i < |some| :: some[i].key == other[i].key
  {
    if some == [] {
      assert other != [] ==> HasKey(other, other[0].key);
    } else if other == [] {
      assert HasKey(some, some[0].key);
      assert false;
    } else {
      var last, rest := some[|some| - 1], other[|other| - 1];
      var front, before := some[..|some| - 1], other[..|other| - 1];
      assert HasKey(some, last.key) && HasKey(other, rest.key);
      assert last.key == rest.key;
      forall key ensures HasKey(front, key) <==> HasKey(before, key) {
        FrontKeys(less, some, key);
        FrontKeys(less, other, key);
      }
      SameKeysSameOrder(less, front, before);
    }
  }

  predicate HasKey(entries: seq<Entry>, key: string) {
    exists i | 0 <= i < |entries| :: entries[i].key == key
  }

  lemma FrontKeys(less: (string, string) -> bool, entries: seq<Entry>, key: string)
    requires TotalOrder(less) && Ascending(less, entries) && entries != []
    ensures HasKey(entries[..|entries| - 1], key) <==> HasKey(entries, key) && key != entries[|entries| - 1].key
  {
    var front := entries[..|entries| - 1];
    if i :| 0 <= i < |entries| && entries[i].key == key && key != entries[|entries| - 1].key {
      assert front[i].key == key;
    }
    if i :| 0 <= i < |front| && front[i].key == key {
      assert entries[i].key == key && less(key, entries[|entries| - 1].key);
    }
  }

  // ---------------------------------------------------------------- the canonical form

  lemma SortedIsInside(less: (string, string) -> bool, entries: seq<Entry>, i: nat)
    requires i < |Sort(less, entries)|
    ensures Sort(less, entries)[i] in entries
  {
    assert Sort(less, entries)[i] in multiset(Sort(less, entries));
  }

  /** Sorts the entries of every object by key; everything else stays as it is. */
  function SortObject(less: (string, string) -> bool, value: Json): Json
    decreases value
  {
    match value
    case List(items) => List(seq(|items|, i requires 0 <= i < |items| => SortObject(less, items[i])))
    case Object(entries) =>
      var sorted := Sort(less, entries);
      Object(seq(|sorted|, i requires 0 <= i < |sorted| =>
        (SortedIsInside(less, entries, i); Entry(sorted[i].key, SortObject(less, sorted[i].value)))))
    case _ => value
  }

  /** No object has a key twice. */
  ghost predicate WellFormed(value: Json)
    decreases value
  {
    match value
    case List(items) => forall i | 0 <= i < |items| :: WellFormed(items[i])
    case Object(entries) => DistinctKeys(entries) && forall i | 0 <= i < |entries| :: WellFormed(entries[i].value)
    case _ => true
  }

  /** Equal up to the order of keys, at every depth. */
  ghost predicate Same(some: Json, other: Json)
    decreases some
  {
    match some
    case List(items) =>
      other.List? && |items| == |other.items| && forall i | 0 <= i < |items| :: Same(items[i], other.items[i])
    case Object(entries) =>
      && other.Object?
      && (forall i | 0 <= i < |entries| :: Matched(entries[i], other.entries))
      && (forall j | 0 <= j < |other.entries| :: HasKey(entries, other.entries[j].key))
    case _ => some == other
  }

  ghost predicate Matched(entry: Entry, others: seq<Entry>)
    decreases entry
  {
    exists j | 0 <= j < |others| :: others[j].key == entry.key && Same(entry.value, others[j].value)
  }

  // ---------------------------------------------------------------- what the canonical form tells

  function SortedEntries(less: (string, string) -> bool, entries: seq<Entry>): seq<Entry> {
    SortObject(less, Object(entries)).entries
  }

  /** The entry at a place of the canonical form, and where it comes from. */
  lemma PlaceOf(less: (string, string) -> bool, entries: seq<Entry>, p: nat) returns (i: nat)
    requires p < |entries| && TotalOrder(less)
    ensures |SortedEntries(less, entries)| == |entries| == |Sort(less, entries)| && i < |entries|
    ensures Sort(less, entries)[p] == entries[i]
    ensures SortedEntries(less, entries)[p] == Entry(entries[i].key, SortObject(less, entries[i].value))
  {
    assert |multiset(Sort(less, entries))| == |Sort(less, entries)| && |multiset(entries)| == |entries|;
    SortedIsInside(less, entries, p);
    i :| 0 <= i < |entries| && entries[i] == Sort(less, entries)[p];
  }

  lemma PlaceFor(less: (string, string) -> bool, entries: seq<Entry>, i: nat) returns (p: nat)
    requires i < |entries|
    ensures p < |Sort(less, entries)| == |entries| && Sort(less, entries)[p] == entries[i]
  {
    assert |multiset(Sort(less, entries))| == |Sort(less, entries)| && |multiset(entries)| == |entries|;
    assert entries[i] in multiset(Sort(less, entries));
    p :| 0 <= p < |Sort(less, entries)| && Sort(less, entries)[p] == entries[i];
  }

  /** The canonical form of a canonical form is itself. */
  lemma {:induction false} CanonicalIsIdempotent(less: (string, string) -> bool, value: Json)
    requires TotalOrder(less) && WellFormed(value)
    ensures SortObject(less, SortObject(less, value)) == SortObject(less, value)
    decreases value
  {
    match value {
      case List(items) =>
        forall i | 0 <= i < |items| ensures SortObject(less, SortObject(less, items[i])) == SortObject(less, items[i]) {
          CanonicalIsIdempotent(less, items[i]);
        }
      case Object(entries) =>
        var once := SortedEntries(less, entries);
        SortAscends(less, entries);
        forall p | 0 <= p < |once| ensures SortObject(less, once[p].value) == once[p].value {
          SortedIsInside(less, entries, p);
          var i :| 0 <= i < |entries| && entries[i] == Sort(less, entries)[p];
          CanonicalIsIdempotent(less, entries[i].value);
        }
        SortKeepsSorted(less, once);
        assert SortedEntries(less, once) == once;
      case _ =>
    }
  }

  /** Objects agree in canonical form when they have the same keys, and the values of each key agree. */
  lemma SameObjects(less: (string, string) -> bool, some: seq<Entry>, other: seq<Entry>)
    requires TotalOrder(less) && DistinctKeys(some) && DistinctKeys(other)
    requires Same(Object(some), Object(other))
    requires forall i, j | 0 <= i < |some| && 0 <= j < |other| && Same(some[i].value, other[j].value) ::
               SortObject(less, some[i].value) == SortObject(less, other[j].value)
    ensures SortObject(less, Object(some)) == SortObject(less, Object(other))
  {
    SortAscends(less, some);
    SortAscends(less, other);
    forall key ensures HasKey(Sort(less, some), key) <==> HasKey(Sort(less, other), key) {
      SortKeepsKeys(less, some, key);
      SortKeepsKeys(less, other, key);
      SameKeys(some, other, key);
    }
    SameKeysSameOrder(less, Sort(less, some), Sort(less, other));
    SortKeepsLength(less, some);
    SortKeepsLength(less, other);
    hide Sort, HasKey, Ascending;
    forall p | 0 <= p < |some| ensures SortedEntries(less, some)[p] == SortedEntries(less, other)[p] {
      hide SortObject, SortedEntries;
      var i := PlaceOf(less, some, p);
      var j := PlaceOf(less, other, p);
      assert Matched(some[i], other);
      var k :| 0 <= k < |other| && other[k].key == some[i].key && Same(some[i].value, other[k].value);
      hide Same, Matched;
      assert k == j;
    }
    assert SortedEntries(less, some) == SortedEntries(less, other);
  }

  lemma SortKeepsLength(less: (string, string) -> bool, entries: seq<Entry>)
    ensures |Sort(less, entries)| == |entries| && |SortedEntries(less, entries)| == |entries|
  {
    assert |multiset(Sort(less, entries))| == |Sort(less, entries)| && |multiset(entries)| == |entries|;
  }

  lemma SortKeepsKeys(less: (string, string) -> bool, entries: seq<Entry>, key: string)
    ensures HasKey(Sort(less, entries), key) <==> HasKey(entries, key)
  {
    if i :| 0 <= i < |entries| && entries[i].key == key {
      var p := PlaceFor(less, entries, i);
    }
    if p :| 0 <= p < |Sort(less, entries)| && Sort(less, entries)[p].key == key {
      SortedIsInside(less, entries, p);
      var i :| 0 <= i < |entries| && entries[i] == Sort(less, entries)[p];
    }
  }

  lemma SameKeys(some: seq<Entry>, other: seq<Entry>, key: string)
    requires Same(Object(some), Object(other))
    ensures HasKey(some, key) <==> HasKey(other, key)
  {
    if i :| 0 <= i < |some| && some[i].key == key {
      assert Matched(some[i], other);
      var j :| 0 <= j < |other| && other[j].key == some[i].key;
    }
  }

  lemma AgreeingObjects(less: (string, string) -> bool, some: seq<Entry>, other: seq<Entry>)
    requires TotalOrder(less) && SortObject(less, Object(some)) == SortObject(less, Object(other))
    requires forall i, j | 0 <= i < |some| && 0 <= j < |other|
                           && SortObject(less, some[i].value) == SortObject(less, other[j].value) ::
               Same(some[i].value, other[j].value)
    ensures Same(Object(some), Object(other))
  {
    assert SortedEntries(less, some) == SortedEntries(less, other);
    hide SortObject, SortedEntries, Sort, TotalOrder;
    forall i | 0 <= i < |some| ensures Matched(some[i], other) {
      var j := Counterpart(less, some, other, i);
      assert Same(some[i].value, other[j].value);
    }
    forall j | 0 <= j < |other| ensures HasKey(some, other[j].key) {
      var i := Counterpart(less, other, some, j);
    }
  }

  lemma Counterpart(less: (string, string) -> bool, some: seq<Entry>, other: seq<Entry>, i: nat) returns (j: nat)
    requires TotalOrder(less) && SortedEntries(less, some) == SortedEntries(less, other) && i < |some|
    ensures j < |other| && other[j].key == some[i].key
    ensures SortObject(less, other[j].value) == SortObject(less, some[i].value)
  {
    var p := PlaceFor(less, some, i);
    var q := PlaceOf(less, some, p);
    assert |multiset(Sort(less, other))| == |Sort(less, other)| && |multiset(other)| == |other|;
    j := PlaceOf(less, other, p);
  }

  /** Two bodies have the same canonical form exactly when they are equal up to the order of keys, at every depth. */
  lemma {:induction false} CanonicalMeansSame(less: (string, string) -> bool, some: Json, other: Json)
    requires TotalOrder(less) && WellFormed(some) && WellFormed(other)
    ensures SortObject(less, some) == SortObject(less, other) <==> Same(some, other)
    decreases some
  {
    match some {
      case List(items) =>
        if other.List? && |items| == |other.items| {
          forall i | 0 <= i < |items|
            ensures SortObject(less, items[i]) == SortObject(less, other.items[i]) <==> Same(items[i], other.items[i])
          {
            CanonicalMeansSame(less, items[i], other.items[i]);
          }
          ListsAgree(less, items, other.items);
        } else if other.List? {
          assert |SortObject(less, some).items| == |items| && |SortObject(less, other).items| == |other.items|;
        }
      case Object(entries) =>
        if other.Object? {
          forall i, j | 0 <= i < |entries| && 0 <= j < |other.entries|
            ensures SortObject(less, entries[i].value) == SortObject(less, other.entries[j].value)
                    <==> Same(entries[i].value, other.entries[j].value)
          {
            CanonicalMeansSame(less, entries[i].value, other.entries[j].value);
          }
          hide SortObject;
          if Same(some, other) {
            SameObjects(less, entries, other.entries);
          }
          if SortObject(less, some) == SortObject(less, other) {
            AgreeingObjects(less, entries, other.entries);
          }
        }
      case _ =>
    }
  }

  lemma ListsAgree(less: (string, string) -> bool, some: seq<Json>, other: seq<Json>)
    requires |some| == |other|
    ensures SortObject(less, List(some)) == SortObject(less, List(other))
            <==> forall i | 0 <= i < |some| :: SortObject(less, some[i]) == SortObject(less, other[i])
  {
    var left, right := SortObject(less, List(some)).items, SortObject(less, List(other)).items;
    if left == right {
      forall i | 0 <= i < |some| ensures SortObject(less, some[i]) == SortObject(less, other[i]) {
        assert left[i] == right[i];
      }
    } else {
      assert exists i | 0 <= i < |some| :: left[i] != right[i];
    }
  }

  // ---------------------------------------------------------------- requests

  datatype Request = Request(verb: string, path: string, body: Option<Json>)

  datatype Canonical = Canonical(verb: string, path: string, body: Json)

  function Upper(s: string): (r: string)
    ensures |r| == |s|
  {
    if s == "" then ""
    else [if 'a' <= s[0] <= 'z' then (s[0] as int - 'a' as int + 'A' as int) as char else s[0]] + Upper(s[1..])
  }

  /** Verbs are compared without regard to the case of their letters, and to nothing else. */
  lemma {:induction false} UpperForgetsCase(some: string, other: string)
    ensures Upper(some) == Upper(other)
            <==> |some| == |other| && forall i | 0 <= i < |some| :: SameLetter(some[i], other[i])
  {
    if |some| == |other| && some != "" {
      UpperForgetsCase(some[1..], other[1..]);
      assert Upper(some) == Upper(other) ==> Upper(some)[0] == Upper(other)[0] && Upper(some)[1..] == Upper(other)[1..];
      assert forall i | 0 <= i < |some| - 1 :: some[1..][i] == some[i + 1] && other[1..][i] == other[i + 1];
      if forall i | 0 <= i < |some| :: SameLetter(some[i], other[i]) {
        assert SameLetter(some[0], other[0]);
      }
      if Upper(some) == Upper(other) {
        forall i | 0 <= i < |some| ensures SameLetter(some[i], other[i]) {
          assert i > 0 ==> SameLetter(some[1..][i - 1], other[1..][i - 1]);
        }
      }
    }
  }

  /** The same character, or the two forms of one letter. */
  predicate SameLetter(a: char, b: char) {
    || a == b
    || ('a' <= a <= 'z' && a as int - 32 == b as int)
    || ('a' <= b <= 'z' && b as int - 32 == a as int)
  }

  /** A missing body and a null body count as an empty object. */
  function BodyOf(request: Request): Json {
    if request.body == None || request.body == Some(Null) then Object([]) else request.body.value
  }

  function CanonicalOf(less: (string, string) -> bool, request: Request): Canonical {
    Canonical(Upper(request.verb), request.path, SortObject(less, BodyOf(request)))
  }

  /** No body, a null body and an empty object are the same request; anything else is told apart from them. */
  lemma EmptyBodies(less: (string, string) -> bool, verb: string, path: string, body: Json)
    requires TotalOrder(less) && WellFormed(body)
    ensures CanonicalOf(less, Request(verb, path, None)) == Canonical(Upper(verb), path, Object([]))
    ensures CanonicalOf(less, Request(verb, path, Some(body))) == CanonicalOf(less, Request(verb, path, None))
            <==> body == Null || body == Object([])
  {
    assert SortObject(less, Object([])) == Object([]);
    if body != Null {
      CanonicalMeansSame(less, body, Object([]));
      OnlyEmptyIsEmpty(body);
      hide SortObject, Same;
    }
  }

  lemma OnlyEmptyIsEmpty(body: Json)
    ensures Same(body, Object([])) <==> body == Object([])
  {
    if body.Object? && body.entries != [] {
      assert !Matched(body.entries[0], []);
    }
  }

  /**
   A retry is recognised as the same request exactly when verb, path and body
   say the same, unless the digests of the two canonical requests collide.
   */
  lemma SameHashSameRequest(less: (string, string) -> bool, hash: Canonical -> string, some: Request, other: Request)
    requires TotalOrder(less) && WellFormed(BodyOf(some)) && WellFormed(BodyOf(other))
    requires hash(CanonicalOf(less, some)) == hash(CanonicalOf(less, other)) ==>
               CanonicalOf(less, some) == CanonicalOf(less, other)
    ensures hash(CanonicalOf(less, some)) == hash(CanonicalOf(less, other))
            <==> |some.verb| == |other.verb| && (forall i | 0 <= i < |some.verb| :: SameLetter(some.verb[i], other.verb[i]))
                 && some.path == other.path && Same(BodyOf(some), BodyOf(other))
  {
    UpperForgetsCase(some.verb, other.verb);
    hide Upper;
    CanonicalMeansSame(less, BodyOf(some), BodyOf(other));
  }
}
