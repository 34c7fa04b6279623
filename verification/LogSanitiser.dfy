/** Copying a log value out of an object graph that may be cyclic, shared, deep or wide, without its secrets. */
module LogSanitiser {
  import opened Outcomes

  const MAX_DEPTH := 6
  const MAX_NODES := 128
  const MAX_ITEMS := 64
  const MAX_KEY_CHARS := 64
  const MAX_INT := 0x7fff_ffff_ffff_ffff

  type Id = nat

  /** `safe` says that a text has the shape its type requires. */
  datatype Scalar = Null | Bool(b: bool) | Int(n: int) | Float(finite: Option<real>) | Text(text: string, safe: bool)

  datatype Value = Plain(scalar: Scalar) | Foreign | Ref(id: Id)

  /** Lists and tuples, and dictionaries. A dictionary is given by its text keys in order (the order in which they are
      visited) and the number of its other keys. */
  datatype Container = List(items: seq<Value>) | Dict(entries: seq<(string, Value)>, oddKeys: nat)

  type Heap = map<Id, Container>

  datatype Marker = NODES | DEPTH | UNSUPPORTED | CYCLE | CONTAINER | SENSITIVE

  datatype Json = Leaf(scalar: Scalar) | Redacted(why: Marker) | Array(items: seq<Json>) | Object(members: seq<Member>)

  datatype Member = Member(key: string, value: Json)

  // Keys

  function Letter(c: char): char {
    if 'A' <= c <= 'Z' then c - 'A' + 'a' else c
  }

  function Normalised(key: string): string {
    if key == "" then ""
    else (if key[0] in "_-." then "" else [Letter(key[0])]) + Normalised(key[1..])
  }

  predicate Contains(s: string, word: string) {
    (|word| <= |s| && s[..|word|] == word) || (s != "" && Contains(s[1..], word))
  }

  const SENSITIVE_WORDS := {
    "password", "passwd", "secret", "token", "authorization", "credential", "cookie", "session", "apikey", "accesskey",
    "privatekey", "clientsecret"}

  const SENSITIVE_KEYS := {
    "env", "environ", "environment", "environmentvariables", "hostname", "user", "username", "home", "homedir"}

  /** json_logging._sensitive_key */
  predicate SensitiveKey(key: string) {
    Normalised(key) in SENSITIVE_KEYS || exists word | word in SENSITIVE_WORDS :: Contains(Normalised(key), word)
  }

  predicate KeyOk(key: string) {
    && 1 <= |key| <= MAX_KEY_CHARS && 'a' <= key[0] <= 'z'
    && forall c | c in key :: 'a' <= c <= 'z' || '0' <= c <= '9' || c == '_'
  }

  /** json_logging._scalar */
  function CopyScalar(s: Scalar): Json {
    match s
    case Int(n) => if -MAX_INT - 1 <= n <= MAX_INT then Leaf(s) else Redacted(UNSUPPORTED)
    case Float(finite) => if finite.Some? then Leaf(s) else Redacted(UNSUPPORTED)
    case Text(_, safe) => if safe then Leaf(s) else Redacted(UNSUPPORTED)
    case _ => Leaf(s)
  }

  function Length(c: Container): nat {
    match c
    case List(items) => |items|
    case Dict(entries, odd) => |entries| + odd
  }

  predicate KeysOk(c: Container) {
    c.Dict? ==> c.oddKeys == 0 && forall e | e in c.entries :: KeyOk(e.0)
  }

  // Which keys are sensitive, and which are allowed at all

  /** The text is the word, in capitals or not, with separators anywhere between its letters. */
  predicate Spells(s: string, word: string) {
    if s == "" then word == ""
    else if s[0] in {'_', '-', '.'} then Spells(s[1..], word)
    else word != "" && SameLetter(s[0], word[0]) && Spells(s[1..], word[1..])
  }

  predicate SameLetter(c: char, small: char) {
    if c in "ABCDEFGHIJKLMNOPQRSTUVWXYZ" then small as int == c as int + 32 else small == c
  }

  lemma LetterIff(c: char, small: char)
    ensures SameLetter(c, small) <==> Letter(c) == small
  {
    CapitalIff(c);
  }

  lemma CapitalIff(c: char)
    ensures c in "ABCDEFGHIJKLMNOPQRSTUVWXYZ" <==> 'A' <= c <= 'Z'
  {
    if 'A' <= c <= 'Z' {
      var capitals := "ABCDEFGHIJKLMNOPQRSTUVWXYZ";
      assert capitals[c as int - 'A' as int] == c;
    }
  }

  predicate TellingWord(word: string) {
    word in {
      "password", "passwd", "secret", "token", "authorization", "credential", "cookie", "session", "apikey", "accesskey",
      "privatekey", "clientsecret"}
  }

  predicate TellingName(name: string) {
    name in {"env", "environ", "environment", "environmentvariables", "hostname", "user", "username", "home", "homedir"}
  }

  /** Some stretch of the key spells a telling word, or the whole key spells a name of the environment or its user. */
  ghost predicate NamesSecret(key: string) {
    || (exists i, j, word :: 0 <= i <= j <= |key| && Spells(key[i..j], word) && TellingWord(word))
    || (exists name :: Spells(key, name) && TellingName(name))
  }

  /** An identifier of at most 64 characters: a small letter, followed by small letters, digits and underscores. */
  ghost predicate Identifier(key: string) {
    && 0 < |key| < 65 && 'a' <= key[0] && key[0] <= 'z'
    && forall i :: 0 < i < |key| ==> ('a' <= key[i] && key[i] <= 'z') || ('0' <= key[i] && key[i] <= '9') || key[i] == '_'
  }

  lemma KeyOkIff(key: string)
    ensures KeyOk(key) <==> Identifier(key)
  {
    if Identifier(key) {
      forall c | c in key
        ensures 'a' <= c <= 'z' || '0' <= c <= '9' || c == '_'
      {
        var i :| 0 <= i < |key| && key[i] == c;
      }
    }
    if KeyOk(key) {
      assert forall i :: 0 <= i < |key| ==> key[i] in key;
    }
  }

  lemma {:induction false} SpellsIff(s: string, word: string)
    ensures Spells(s, word) <==> Normalised(s) == word
  {
    if s != "" {
      assert s[0] in "_-." <==> s[0] in {'_', '-', '.'};
      if s[0] in {'_', '-', '.'} {
        SpellsIff(s[1..], word);
      } else if word != "" {
        SpellsIff(s[1..], word[1..]);
        LetterIff(s[0], word[0]);
        assert word == [word[0]] + word[1..];
      }
    }
  }

  predicate StandsAt(s: string, word: string, k: nat) {
    k + |word| <= |s| && s[k..k + |word|] == word
  }

  lemma {:induction false} ContainsIff(s: string, word: string)
    ensures Contains(s, word) <==> exists k: nat :: StandsAt(s, word, k)
  {
    if |word| <= |s| && s[..|word|] == word {
      assert StandsAt(s, word, 0);
    } else if s != "" {
      ContainsIff(s[1..], word);
      if k: nat :| StandsAt(s, word, k) {
        assert StandsAt(s[1..], word, k - 1);
      }
      if k: nat :| StandsAt(s[1..], word, k) {
        assert StandsAt(s, word, k + 1);
      }
    }
  }

  lemma {:induction false} NormalisedParts(s: string, t: string)
    ensures Normalised(s + t) == Normalised(s) + Normalised(t)
  {
    if s == "" {
      assert s + t == t;
    } else {
      assert (s + t)[1..] == s[1..] + t;
      NormalisedParts(s[1..], t);
    }
  }

  /** Every cut of the normalised text comes from a cut of the text. */
  lemma {:induction false} CutBefore(s: string, k: nat) returns (i: nat)
    requires k <= |Normalised(s)|
    ensures i <= |s| && Normalised(s[..i]) == Normalised(s)[..k] && Normalised(s[i..]) == Normalised(s)[k..]
  {
    if k == 0 {
      i := 0;
      assert s[0..] == s;
    } else {
      var kept := if s[0] in "_-." then 0 else 1;
      var rest := CutBefore(s[1..], k - kept);
      i := rest + 1;
      assert s[..i][1..] == s[1..][..rest] && s[i..] == s[1..][rest..];
    }
  }

  lemma TellingIff(word: string)
    ensures TellingWord(word) <==> word in SENSITIVE_WORDS
    ensures TellingName(word) <==> word in SENSITIVE_KEYS
  {
  }

  lemma HasWordIff(key: string)
    ensures (exists word | word in SENSITIVE_WORDS :: Contains(Normalised(key), word))
       <==> (exists i, j, word :: 0 <= i <= j <= |key| && Spells(key[i..j], word) && TellingWord(word))
  {
    if word :| word in SENSITIVE_WORDS && Contains(Normalised(key), word) {
      var i, j := FindStretch(key, word);
      TellingIff(word);
      assert Spells(key[i..j], word);
    }
    if i, j, word :| 0 <= i <= j <= |key| && Spells(key[i..j], word) && TellingWord(word) {
      StretchIsFound(key, i, j, word);
      TellingIff(word);
    }
  }

  lemma IsNameIff(key: string)
    ensures Normalised(key) in SENSITIVE_KEYS <==> exists name :: Spells(key, name) && TellingName(name)
  {
    SpellsIff(key, Normalised(key));
    TellingIff(Normalised(key));
    if name :| Spells(key, name) && TellingName(name) {
      SpellsIff(key, name);
    }
  }

  /** The sensitive keys are those that name a secret. */
  lemma SensitiveIff(key: string)
    ensures SensitiveKey(key) <==> NamesSecret(key)
  {
    HasWordIff(key);
    IsNameIff(key);
  }

  lemma FindStretch(key: string, word: string) returns (i: nat, j: nat)
    requires Contains(Normalised(key), word)
    ensures i <= j <= |key| && Spells(key[i..j], word)
  {
    ContainsIff(Normalised(key), word);
    var k: nat :| StandsAt(Normalised(key), word, k);
    i := CutBefore(key, k);
    var length := CutBefore(key[i..], |word|);
    j := i + length;
    assert key[i..][..length] == key[i..j] && Normalised(key)[k..][..|word|] == word;
    SpellsIff(key[i..j], word);
  }

  lemma StretchIsFound(key: string, i: nat, j: nat, word: string)
    requires i <= j <= |key| && Spells(key[i..j], word)
    ensures Contains(Normalised(key), word)
  {
    SpellsIff(key[i..j], word);
    assert key == key[..i] + (key[i..j] + key[j..]);
    NormalisedParts(key[..i], key[i..j] + key[j..]);
    NormalisedParts(key[i..j], key[j..]);
    var k := |Normalised(key[..i])|;
    assert StandsAt(Normalised(key), word, k);
    ContainsIff(Normalised(key), word);
  }

  // The specification: what a value is copied to, and how many nodes have been counted afterwards

  function Rank(depth: nat): nat {
    if depth > MAX_DEPTH then 0 else MAX_DEPTH + 1 - depth
  }

  /** A value that is not copied item by item, or None. `nodes` includes the value itself. */
  function Shortcut(heap: Heap, v: Value, depth: nat, nodes: nat, active: set<Id>): Option<Json> {
    if nodes > MAX_NODES then Some(Redacted(NODES))
    else if depth > MAX_DEPTH then Some(Redacted(DEPTH))
    else match v
    case Plain(s) => Some(CopyScalar(s))
    case Foreign => Some(Redacted(UNSUPPORTED))
    case Ref(id) =>
      if id !in heap then Some(Redacted(UNSUPPORTED))
      else if id in active then Some(Redacted(CYCLE))
      else if Length(heap[id]) > MAX_ITEMS then Some(Redacted(CONTAINER))
      else if !KeysOk(heap[id]) then Some(Redacted(CONTAINER))
      else None
  }

  function Copy(heap: Heap, v: Value, depth: nat, nodes: nat, active: set<Id>): (Json, nat)
    decreases Rank(depth), 0
  {
    var shortcut := Shortcut(heap, v, depth, nodes + 1, active);
    if shortcut.Some? then (shortcut.value, nodes + 1)
    else CopyContents(heap, heap[v.id], depth + 1, nodes + 1, active + {v.id})
  }

  function CopyContents(heap: Heap, c: Container, depth: nat, nodes: nat, active: set<Id>): (Json, nat)
    decreases Rank(depth), Length(c) + 2
  {
    match c
    case List(items) =>
      var (copies, count) := CopyItems(heap, items, depth, nodes, active);
      (Array(copies), count)
    case Dict(entries, _) =>
      var (copies, count) := CopyEntries(heap, entries, depth, nodes, active);
      (Object(copies), count)
  }

  function CopyItems(heap: Heap, items: seq<Value>, depth: nat, nodes: nat, active: set<Id>): (r: (seq<Json>, nat))
    ensures |r.0| == |items|
    decreases Rank(depth), |items| + 1
  {
    if items == [] then ([], nodes) else
    var (before, count) := CopyItems(heap, items[..|items| - 1], depth, nodes, active);
    var (last, total) := Copy(heap, items[|items| - 1], depth, count, active);
    (before + [last], total)
  }

  /** A sensitive entry is redacted without being visited or counted. */
  function CopyEntry(heap: Heap, e: (string, Value), depth: nat, nodes: nat, active: set<Id>): (Json, nat)
    decreases Rank(depth), 1
  {
    if SensitiveKey(e.0) then (Redacted(SENSITIVE), nodes) else Copy(heap, e.1, depth, nodes, active)
  }

  function CopyEntries(heap: Heap, entries: seq<(string, Value)>, depth: nat, nodes: nat, active: set<Id>): (r: (seq<Member>, nat))
    ensures |r.0| == |entries|
    ensures forall i :: 0 <= i < |entries| ==> r.0[i].key == entries[i].0
    decreases Rank(depth), |entries| + 1
  {
    if entries == [] then ([], nodes) else
    var e := entries[|entries| - 1];
    var (before, count) := CopyEntries(heap, entries[..|entries| - 1], depth, nodes, active);
    var (last, total) := CopyEntry(heap, e, depth, count, active);
    (before + [Member(e.0, last)], total)
  }

  /** The traversal with its node counter and its set of active objects. */
  class Sanitiser {
    const heap: Heap
    var nodes: nat
    var active: set<Id>

    constructor (heap: Heap)
      ensures this.heap == heap && nodes == 0 && active == {}
    {
      this.heap, this.nodes, this.active := heap, 0, {};
    }

    /** json_logging._sanitize: terminates on every graph, and leaves the set of active objects as it was. */
    method Sanitise(v: Value, depth: nat) returns (result: Json)
      modifies this
      ensures (result, nodes) == Copy(heap, v, depth, old(nodes), old(active))
      ensures active == old(active)
      decreases Rank(depth), 0
    {
      nodes := nodes + 1;
      if nodes > MAX_NODES { return Redacted(NODES); }
      if depth > MAX_DEPTH { return Redacted(DEPTH); }
      if v.Plain? { return CopyScalar(v.scalar); }
      if v.Foreign? || v.id !in heap { return Redacted(UNSUPPORTED); }
      if v.id in active { return Redacted(CYCLE); }
      if Length(heap[v.id]) > MAX_ITEMS { return Redacted(CONTAINER); }
      ghost var before := active;
      active := active + {v.id};
      if !KeysOk(heap[v.id]) {
        result := Redacted(CONTAINER);
      } else {
        match heap[v.id]
        case List(items) => result := SanitiseItems(items, depth + 1);
        case Dict(entries, _) => result := SanitiseEntries(entries, depth + 1);
      }
      active := active - {v.id};
      assert active == before;
    }

    method SanitiseItems(items: seq<Value>, depth: nat) returns (result: Json)
      modifies this
      ensures var (copies, count) := CopyItems(heap, items, depth, old(nodes), old(active)); result == Array(copies) && nodes == count
      ensures active == old(active)
      decreases Rank(depth), 1
    {
      var copies: seq<Json> := [];
      for i := 0 to |items|
        invariant (copies, nodes) == CopyItems(heap, items[..i], depth, old(nodes), old(active)) && active == old(active)
      {
        assert items[..i + 1][..i] == items[..i];
        var copy := Sanitise(items[i], depth);
        copies := copies + [copy];
      }
      assert items[..|items|] == items;
      return Array(copies);
    }

    method SanitiseEntries(entries: seq<(string, Value)>, depth: nat) returns (result: Json)
      modifies this
      ensures var (copies, count) := CopyEntries(heap, entries, depth, old(nodes), old(active)); result == Object(copies) && nodes == count
      ensures active == old(active)
      decreases Rank(depth), 1
    {
      var members: seq<Member> := [];
      for i := 0 to |entries|
        invariant (members, nodes) == CopyEntries(heap, entries[..i], depth, old(nodes), old(active)) && active == old(active)
      {
        assert entries[..i + 1][..i] == entries[..i];
        var (key, value) := entries[i];
        var copy := Redacted(SENSITIVE);
        if !SensitiveKey(key) {
          copy := Sanitise(value, depth);
        }
        members := members + [Member(key, copy)];
      }
      assert entries[..|entries|] == entries;
      return Object(members);
    }
  }

  /** json_logging.sanitize_log_value */
  method SanitiseLogValue(heap: Heap, v: Value) returns (result: Json)
    ensures result == Sanitised(heap, v)
    ensures forall place, i: nat ::
              var found := At(result, place);
              found.Some? && found.value.Object? && i < |found.value.members| ==>
                var member := found.value.members[i];
                NamesSecret(member.key) <==> member.value == Redacted(SENSITIVE)
  {
    var s := new Sanitiser(heap);
    result := s.Sanitise(v, 0);
    forall place, i: nat | At(result, place).Some? && At(result, place).value.Object? && i < |At(result, place).value.members|
      ensures var member := At(result, place).value.members[i];
              NamesSecret(member.key) <==> member.value == Redacted(SENSITIVE)
    {
      SecretsAreRedacted(heap, v, place, i);
    }
  }

  function Sanitised(heap: Heap, v: Value): Json {
    Copy(heap, v, 0, 0, {}).0
  }

  // Bounds

  function Max(a: nat, b: nat): nat {
    if a > b then a else b
  }

  /** Levels of a result. */
  function Height(j: Json): nat {
    match j
    case Array(items) => 1 + HeightOfItems(items)
    case Object(members) => 1 + HeightOfMembers(members)
    case _ => 1
  }

  function HeightOfItems(items: seq<Json>): nat {
    if items == [] then 0 else Max(HeightOfItems(items[..|items| - 1]), Height(items[|items| - 1]))
  }

  function HeightOfMembers(members: seq<Member>): nat {
    if members == [] then 0 else Max(HeightOfMembers(members[..|members| - 1]), Height(members[|members| - 1].value))
  }

  /** Values in a result. */
  function Size(j: Json): nat {
    match j
    case Array(items) => 1 + SizeOfItems(items)
    case Object(members) => 1 + SizeOfMembers(members)
    case _ => 1
  }

  function SizeOfItems(items: seq<Json>): nat {
    if items == [] then 0 else SizeOfItems(items[..|items| - 1]) + Size(items[|items| - 1])
  }

  function SizeOfMembers(members: seq<Member>): nat {
    if members == [] then 0 else SizeOfMembers(members[..|members| - 1]) + Size(members[|members| - 1].value)
  }

  /** How much of the node budget has been spent. */
  function Spent(nodes: nat): nat {
    if nodes > MAX_NODES then MAX_NODES else nodes
  }

  /** No deeper than the limit allows below `depth`, and no larger than the nodes spent in between allow. */
  predicate Bounded(j: Json, depth: nat, nodes: nat, count: nat) {
    nodes < count && Height(j) <= MAX_DEPTH + 2 - depth && Size(j) <= 1 + MAX_ITEMS * (Spent(count) - Spent(nodes))
  }

  /** Every copy is bounded. */
  lemma {:induction false} CopyIsBounded(heap: Heap, v: Value, depth: nat, nodes: nat, active: set<Id>)
    requires depth <= MAX_DEPTH + 1
    ensures Bounded(Copy(heap, v, depth, nodes, active).0, depth, nodes, Copy(heap, v, depth, nodes, active).1)
    decreases Rank(depth), 0
  {
    if Shortcut(heap, v, depth, nodes + 1, active).Some? {
      ShortcutsAreFlat(heap, v, depth, nodes + 1, active);
    } else {
      ContentsAreBounded(heap, heap[v.id], depth + 1, nodes + 1, active + {v.id});
    }
  }

  lemma {:induction false} ContentsAreBounded(heap: Heap, c: Container, depth: nat, nodes: nat, active: set<Id>)
    requires 0 < depth <= MAX_DEPTH + 1 && 0 < nodes <= MAX_NODES && Length(c) <= MAX_ITEMS
    ensures Bounded(CopyContents(heap, c, depth, nodes, active).0, depth - 1, nodes - 1, CopyContents(heap, c, depth, nodes, active).1)
    decreases Rank(depth), Length(c) + 2
  {
    match c
    case List(items) => ItemsAreBounded(heap, items, depth, nodes, active);
    case Dict(entries, _) => EntriesAreBounded(heap, entries, depth, nodes, active);
  }

  lemma ShortcutsAreFlat(heap: Heap, v: Value, depth: nat, nodes: nat, active: set<Id>)
    requires Shortcut(heap, v, depth, nodes, active).Some?
    ensures var j := Shortcut(heap, v, depth, nodes, active).value; Height(j) == 1 && Size(j) == 1
  {
  }

  lemma {:induction false} ItemsAreBounded(heap: Heap, items: seq<Value>, depth: nat, nodes: nat, active: set<Id>)
    requires depth <= MAX_DEPTH + 1
    ensures var (copies, count) := CopyItems(heap, items, depth, nodes, active);
            && count >= nodes && HeightOfItems(copies) <= MAX_DEPTH + 2 - depth
            && SizeOfItems(copies) <= |items| + MAX_ITEMS * (Spent(count) - Spent(nodes))
    decreases Rank(depth), |items| + 1
  {
    if items != [] {
      var shorter := items[..|items| - 1];
      ItemsAreBounded(heap, shorter, depth, nodes, active);
      var (before, count) := CopyItems(heap, shorter, depth, nodes, active);
      CopyIsBounded(heap, items[|items| - 1], depth, count, active);
      var (copies, total) := CopyItems(heap, items, depth, nodes, active);
      assert copies[..|copies| - 1] == before;
    }
  }

  lemma {:induction false} EntriesAreBounded(heap: Heap, entries: seq<(string, Value)>, depth: nat, nodes: nat, active: set<Id>)
    requires depth <= MAX_DEPTH + 1
    ensures var (copies, count) := CopyEntries(heap, entries, depth, nodes, active);
            && count >= nodes && HeightOfMembers(copies) <= MAX_DEPTH + 2 - depth
            && SizeOfMembers(copies) <= |entries| + MAX_ITEMS * (Spent(count) - Spent(nodes))
    decreases Rank(depth), |entries| + 1
  {
    if entries != [] {
      var shorter := entries[..|entries| - 1];
      EntriesAreBounded(heap, shorter, depth, nodes, active);
      var (before, count) := CopyEntries(heap, shorter, depth, nodes, active);
      CopyIsBounded(heap, entries[|entries| - 1].1, depth, count, active);
      var (copies, total) := CopyEntries(heap, entries, depth, nodes, active);
      assert copies[..|copies| - 1] == before;
    }
  }

  /** Whatever the graph: eight levels at most, and a size fixed by the limits. */
  lemma SanitisedIsBounded(heap: Heap, v: Value)
    ensures Height(Sanitised(heap, v)) <= 8 && Size(Sanitised(heap, v)) <= 1 + 64 * 128
  {
    CopyIsBounded(heap, v, 0, 0, {});
  }

  // Positions

  /** Both in a result and in the graph, a path of indices leads to a place. */
  type Place = seq<nat>

  /** What a slot of a result holds. */
  function Part(j: Json, i: nat): Option<Json> {
    match j
    case Array(items) => if i < |items| then Some(items[i]) else None
    case Object(members) => if i < |members| then Some(members[i].value) else None
    case _ => None
  }

  function At(j: Json, place: Place): Option<Json>
    decreases |place|
  {
    if place == [] then Some(j) else
    var part := Part(j, place[0]);
    if part.None? then None else At(part.value, place[1..])
  }

  lemma {:induction false} MaxOfItems(items: seq<Json>, h: nat)
    ensures HeightOfItems(items) <= h <==> forall i :: 0 <= i < |items| ==> Height(items[i]) <= h
  {
    if items != [] {
      MaxOfItems(items[..|items| - 1], h);
    }
  }

  lemma {:induction false} MaxOfMembers(members: seq<Member>, h: nat)
    ensures HeightOfMembers(members) <= h <==> forall i :: 0 <= i < |members| ==> Height(members[i].value) <= h
  {
    if members != [] {
      MaxOfMembers(members[..|members| - 1], h);
    }
  }

  /** The height is the number of levels: no place is deeper, and some place is that deep. */
  lemma {:induction false} PlacesAreAbove(j: Json, place: Place)
    requires At(j, place).Some?
    ensures |place| < Height(j)
    decreases |place|
  {
    if place != [] {
      var part := Part(j, place[0]).value;
      PlacesAreAbove(part, place[1..]);
      match j
      case Array(items) => MaxOfItems(items, HeightOfItems(items));
      case Object(members) => MaxOfMembers(members, HeightOfMembers(members));
      case _ =>
    }
  }

  lemma {:induction false} DeepestPlace(j: Json) returns (place: Place)
    ensures At(j, place).Some? && |place| == Height(j) - 1
  {
    place := [];
    match j
    case Array(items) =>
      if items != [] {
        if HeightOfItems(items) > 0 { MaxOfItems(items, HeightOfItems(items) - 1); }
        MaxOfItems(items, HeightOfItems(items));
        assert Height(items[0]) > 0;
        var i :| 0 <= i < |items| && Height(items[i]) == HeightOfItems(items);
        var rest := DeepestPlace(items[i]);
        place := [i] + rest;
        assert place[1..] == rest;
      }
    case Object(members) =>
      if members != [] {
        if HeightOfMembers(members) > 0 { MaxOfMembers(members, HeightOfMembers(members) - 1); }
        MaxOfMembers(members, HeightOfMembers(members));
        assert Height(members[0].value) > 0;
        var i :| 0 <= i < |members| && Height(members[i].value) == HeightOfMembers(members);
        var rest := DeepestPlace(members[i].value);
        place := [i] + rest;
        assert place[1..] == rest;
      }
    case _ =>
  }

  /** These places, each below the slot `i`. */
  function Below(i: nat, places: set<Place>): set<Place> {
    set p | p in places :: [i] + p
  }

  lemma {:induction false} AsManyBelow(i: nat, places: set<Place>)
    ensures |Below(i, places)| == |places|
  {
    if p :| p in places {
      AsManyBelow(i, places - {p});
      assert ([i] + p)[1..] == p;
      assert forall q :: q in places - {p} ==> ([i] + q)[1..] == q;
      assert Below(i, places) == Below(i, places - {p}) + {[i] + p};
    } else {
      assert places == {} && Below(i, places) == {};
    }
  }

  lemma InSlot(i: nat, places: set<Place>)
    ensures forall p: Place :: p in Below(i, places) <==> p != [] && p[0] == i && p[1..] in places
  {
    forall p: Place
      ensures p in Below(i, places) <==> p != [] && p[0] == i && p[1..] in places
    {
      assert p != [] ==> p == [p[0]] + p[1..];
    }
  }

  /** The size is the number of places. */
  lemma {:induction false} AllPlaces(j: Json) returns (places: set<Place>)
    ensures (forall p :: p in places <==> At(j, p).Some?) && |places| == Size(j)
    decreases j, 0
  {
    var below: set<Place>;
    match j {
      case Array(items) => below := PlacesOfItems(items);
      case Object(members) => below := PlacesOfMembers(members);
      case _ => below := {};
    }
    places := {[]} + below;
    assert [] !in below;
  }

  lemma {:induction false} PlacesOfItems(items: seq<Json>) returns (places: set<Place>)
    ensures (forall p: Place :: p in places <==> p != [] && p[0] < |items| && At(items[p[0]], p[1..]).Some?)
    ensures |places| == SizeOfItems(items)
    decreases items, 1
  {
    places := {};
    if items != [] {
      var n := |items| - 1;
      var before := PlacesOfItems(items[..n]);
      var last := AllPlaces(items[n]);
      AsManyBelow(n, last);
      places := before + Below(n, last);
      InSlot(n, last);
    }
  }

  lemma {:induction false} PlacesOfMembers(members: seq<Member>) returns (places: set<Place>)
    ensures (forall p: Place :: p in places <==> p != [] && p[0] < |members| && At(members[p[0]].value, p[1..]).Some?)
    ensures |places| == SizeOfMembers(members)
    decreases members, 1
  {
    places := {};
    if members != [] {
      var n := |members| - 1;
      var before := PlacesOfMembers(members[..n]);
      var last := AllPlaces(members[n].value);
      AsManyBelow(n, last);
      places := before + Below(n, last);
      InSlot(n, last);
    }
  }

  /** So a result has no place below the eighth level, and only so many places. */
  lemma PlacesAreFew(heap: Heap, v: Value) returns (places: set<Place>)
    ensures (forall p :: p in places <==> At(Sanitised(heap, v), p).Some?) && |places| <= 1 + 64 * 128
    ensures forall p :: p in places ==> |p| < 8
  {
    SanitisedIsBounded(heap, v);
    places := AllPlaces(Sanitised(heap, v));
    forall p | p in places
      ensures |p| < 8
    {
      PlacesAreAbove(Sanitised(heap, v), p);
    }
  }

  function Child(heap: Heap, v: Value, i: nat): Option<Value> {
    if !v.Ref? || v.id !in heap then None else
    match heap[v.id]
    case List(items) => if i < |items| then Some(items[i]) else None
    case Dict(entries, _) => if i < |entries| then Some(entries[i].1) else None
  }

  function ValueAt(heap: Heap, v: Value, place: Place): Option<Value>
    decreases |place|
  {
    if place == [] then Some(v) else
    var child := Child(heap, v, place[0]);
    if child.None? then None else ValueAt(heap, child.value, place[1..])
  }

  lemma {:induction false} ItemCopy(heap: Heap, items: seq<Value>, depth: nat, nodes: nat, active: set<Id>, i: nat)
    requires i < |items|
    ensures CopyItems(heap, items, depth, nodes, active).0[i]
         == Copy(heap, items[i], depth, CopyItems(heap, items[..i], depth, nodes, active).1, active).0
  {
    var n := |items| - 1;
    if i < n {
      ItemCopy(heap, items[..n], depth, nodes, active, i);
      assert items[..n][..i] == items[..i];
    }
  }

  lemma {:induction false} EntryCopy(heap: Heap, entries: seq<(string, Value)>, depth: nat, nodes: nat, active: set<Id>, i: nat)
    requires i < |entries|
    ensures CopyEntries(heap, entries, depth, nodes, active).0[i].value
         == CopyEntry(heap, entries[i], depth, CopyEntries(heap, entries[..i], depth, nodes, active).1, active).0
  {
    var n := |entries| - 1;
    var (before, count) := CopyEntries(heap, entries[..n], depth, nodes, active);
    assert CopyEntries(heap, entries, depth, nodes, active).0
        == before + [Member(entries[n].0, CopyEntry(heap, entries[n], depth, count, active).0)];
    if i < n {
      EntryCopy(heap, entries[..n], depth, nodes, active, i);
      assert entries[..n][..i] == entries[..i];
    }
  }

  function Slots(c: Container): nat {
    match c
    case List(items) => |items|
    case Dict(entries, _) => |entries|
  }

  /** The node counter after the first `n` slots of a container. */
  function CountAfter(heap: Heap, c: Container, n: nat, depth: nat, nodes: nat, active: set<Id>): nat
    requires n <= Slots(c)
  {
    match c
    case List(items) => CopyItems(heap, items[..n], depth, nodes, active).1
    case Dict(entries, _) => CopyEntries(heap, entries[..n], depth, nodes, active).1
  }

  predicate SensitiveSlot(heap: Heap, v: Value, i: nat) {
    v.Ref? && v.id in heap && heap[v.id].Dict? && i < |heap[v.id].entries| && SensitiveKey(heap[v.id].entries[i].0)
  }

  /** A container that is kept holds in each slot the redacted mark of a sensitive entry, or the copy of the child, made one
      level deeper inside one more active object. */
  lemma SlotCopy(heap: Heap, v: Value, depth: nat, nodes: nat, active: set<Id>, i: nat)
    requires nodes < MAX_NODES && Shortcut(heap, v, depth, 0, active).None? && i < Slots(heap[v.id])
    ensures Child(heap, v, i).Some?
    ensures Part(Copy(heap, v, depth, nodes, active).0, i)
         == Some(if SensitiveSlot(heap, v, i) then Redacted(SENSITIVE)
                 else Copy(heap, Child(heap, v, i).value, depth + 1,
                           CountAfter(heap, heap[v.id], i, depth + 1, nodes + 1, active + {v.id}), active + {v.id}).0)
  {
    assert Copy(heap, v, depth, nodes, active) == CopyContents(heap, heap[v.id], depth + 1, nodes + 1, active + {v.id});
    ContentsSlot(heap, heap[v.id], depth + 1, nodes + 1, active + {v.id}, i);
  }

  lemma ContentsSlot(heap: Heap, c: Container, depth: nat, nodes: nat, active: set<Id>, i: nat)
    requires i < Slots(c)
    ensures Part(CopyContents(heap, c, depth, nodes, active).0, i)
         == Some(if c.Dict? then CopyEntry(heap, c.entries[i], depth, CountAfter(heap, c, i, depth, nodes, active), active).0
                 else Copy(heap, c.items[i], depth, CountAfter(heap, c, i, depth, nodes, active), active).0)
  {
    match c
    case List(items) => ItemCopy(heap, items, depth, nodes, active, i);
    case Dict(entries, _) => EntryCopy(heap, entries, depth, nodes, active, i);
  }

  /** Only containers that are kept have slots in the result. */
  lemma OnlyKeptHaveSlots(heap: Heap, v: Value, depth: nat, nodes: nat, active: set<Id>, i: nat)
    requires Part(Copy(heap, v, depth, nodes, active).0, i).Some?
    ensures v.Ref? && depth <= MAX_DEPTH && v.id !in active && nodes < MAX_NODES
    ensures Shortcut(heap, v, depth, 0, active).None? && i < Slots(heap[v.id])
  {
  }

  /** One step down to the slot that the first index of a place leads to. */
  lemma StepDown(heap: Heap, v: Value, depth: nat, nodes: nat, active: set<Id>, place: Place) returns (count: nat)
    requires place != [] && At(Copy(heap, v, depth, nodes, active).0, place).Some?
    ensures v.Ref? && Child(heap, v, place[0]).Some? && depth <= MAX_DEPTH && v.id !in active && nodes < MAX_NODES
    ensures Shortcut(heap, v, depth, 0, active).None? && place[0] < Slots(heap[v.id])
    ensures count == CountAfter(heap, heap[v.id], place[0], depth + 1, nodes + 1, active + {v.id})
    ensures SensitiveSlot(heap, v, place[0]) ==> |place| == 1
    ensures At(Copy(heap, v, depth, nodes, active).0, place)
         == At(if SensitiveSlot(heap, v, place[0]) then Redacted(SENSITIVE)
               else Copy(heap, Child(heap, v, place[0]).value, depth + 1, count, active + {v.id}).0, place[1..])
  {
    OnlyKeptHaveSlots(heap, v, depth, nodes, active, place[0]);
    SlotCopy(heap, v, depth, nodes, active, place[0]);
    count := CountAfter(heap, heap[v.id], place[0], depth + 1, nodes + 1, active + {v.id});
    OnlyRoot(Redacted(SENSITIVE), place[1..]);
  }

  lemma OnlyRoot(j: Json, place: Place)
    requires !j.Array? && !j.Object?
    ensures At(j, place).Some? <==> place == []
  {
  }

  // Cycles

  /** The object is on the way from `v` to the place, not counting the place itself. */
  ghost predicate OnTheWayTo(heap: Heap, v: Value, place: Place, id: Id) {
    exists k: nat :: k < |place| && ValueAt(heap, v, place[..k]) == Some(Ref(id))
  }

  lemma OnTheWayStep(heap: Heap, v: Value, place: Place, id: Id)
    requires place != [] && v.Ref? && Child(heap, v, place[0]).Some?
    ensures OnTheWayTo(heap, v, place, id) <==> v.id == id || OnTheWayTo(heap, Child(heap, v, place[0]).value, place[1..], id)
  {
    var child := Child(heap, v, place[0]).value;
    forall k: nat | k < |place| - 1
      ensures ValueAt(heap, v, place[..k + 1]) == ValueAt(heap, child, place[1..][..k])
    {
      assert place[..k + 1][0] == place[0] && place[..k + 1][1..] == place[1..][..k];
    }
    assert ValueAt(heap, v, place[..0]) == Some(v);
    if OnTheWayTo(heap, v, place, id) {
      var k: nat :| k < |place| && ValueAt(heap, v, place[..k]) == Some(Ref(id));
      if k > 0 {
        assert ValueAt(heap, child, place[1..][..k - 1]) == Some(Ref(id));
      }
    }
    if OnTheWayTo(heap, child, place[1..], id) {
      var k: nat :| k < |place| - 1 && ValueAt(heap, child, place[1..][..k]) == Some(Ref(id));
      assert ValueAt(heap, v, place[..k + 1]) == Some(Ref(id));
    }
  }

  // What is kept

  /** How many values a traversal without a limit of nodes visits from here. */
  function Weight(heap: Heap, v: Value, depth: nat, active: set<Id>): (n: nat)
    ensures n >= 1
    decreases Rank(depth), 0
  {
    if Shortcut(heap, v, depth, 0, active).Some? then 1
    else 1 + WeightOfFirst(heap, heap[v.id], Slots(heap[v.id]), depth + 1, active + {v.id})
  }

  /** And through the first slots of a container. */
  function WeightOfFirst(heap: Heap, c: Container, n: nat, depth: nat, active: set<Id>): nat
    requires n <= Slots(c)
    decreases Rank(depth), n + 1
  {
    if n == 0 then 0 else
    WeightOfFirst(heap, c, n - 1, depth, active)
    + match c
      case List(items) => Weight(heap, items[n - 1], depth, active)
      case Dict(entries, _) => if SensitiveKey(entries[n - 1].0) then 0 else Weight(heap, entries[n - 1].1, depth, active)
  }

  /** How many values such a traversal visits before this place. */
  function Before(heap: Heap, v: Value, depth: nat, active: set<Id>, place: Place): nat
    decreases |place|
  {
    if place == [] || Child(heap, v, place[0]).None? then 0
    else
      1 + WeightOfFirst(heap, heap[v.id], place[0], depth + 1, active + {v.id})
      + Before(heap, Child(heap, v, place[0]).value, depth + 1, active + {v.id}, place[1..])
  }

  /** The node counter is right until it passes the limit, and past the limit from then on. */
  predicate Agrees(nodes: nat, visited: nat) {
    if visited <= MAX_NODES then nodes == visited else nodes > MAX_NODES
  }

  lemma {:induction false} CopyCounts(heap: Heap, v: Value, depth: nat, nodes: nat, visited: nat, active: set<Id>)
    requires Agrees(nodes, visited)
    ensures Agrees(Copy(heap, v, depth, nodes, active).1, visited + Weight(heap, v, depth, active))
    decreases Rank(depth), 0
  {
    if nodes < MAX_NODES && Shortcut(heap, v, depth, 0, active).None? {
      var c := heap[v.id];
      FirstCount(heap, c, Slots(c), depth + 1, nodes + 1, nodes + 1, active + {v.id});
      match c
      case List(items) => assert items[..|items|] == items;
      case Dict(entries, _) => assert entries[..|entries|] == entries;
    }
  }

  lemma {:induction false} FirstCount(heap: Heap, c: Container, n: nat, depth: nat, nodes: nat, visited: nat, active: set<Id>)
    requires n <= Slots(c) && Agrees(nodes, visited)
    ensures Agrees(CountAfter(heap, c, n, depth, nodes, active), visited + WeightOfFirst(heap, c, n, depth, active))
    decreases Rank(depth), n + 1
  {
    if n > 0 {
      FirstCount(heap, c, n - 1, depth, nodes, visited, active);
      var count, total := CountAfter(heap, c, n - 1, depth, nodes, active), visited + WeightOfFirst(heap, c, n - 1, depth, active);
      match c
      case List(items) =>
        CountOneMore(heap, items, n, depth, nodes, active);
        CopyCounts(heap, items[n - 1], depth, count, total, active);
      case Dict(entries, odd) =>
        CountOneEntry(heap, entries, odd, n, depth, nodes, active);
        if !SensitiveKey(entries[n - 1].0) {
          CopyCounts(heap, entries[n - 1].1, depth, count, total, active);
        }
    }
  }

  lemma CountOneMore(heap: Heap, items: seq<Value>, n: nat, depth: nat, nodes: nat, active: set<Id>)
    requires 0 < n <= |items|
    ensures CountAfter(heap, List(items), n, depth, nodes, active)
         == Copy(heap, items[n - 1], depth, CountAfter(heap, List(items), n - 1, depth, nodes, active), active).1
  {
    assert items[..n][..n - 1] == items[..n - 1];
  }

  lemma CountOneEntry(heap: Heap, entries: seq<(string, Value)>, odd: nat, n: nat, depth: nat, nodes: nat, active: set<Id>)
    requires 0 < n <= |entries|
    ensures CountAfter(heap, Dict(entries, odd), n, depth, nodes, active)
         == CopyEntry(heap, entries[n - 1], depth, CountAfter(heap, Dict(entries, odd), n - 1, depth, nodes, active), active).1
  {
    assert entries[..n][..n - 1] == entries[..n - 1] && entries[..n][n - 1] == entries[n - 1];
  }

  /** The place is the value of a sensitive key. */
  predicate Sensitive(heap: Heap, v: Value, place: Place)
    decreases |place|
  {
    if place == [] then false
    else if |place| == 1 then SensitiveSlot(heap, v, place[0])
    else Child(heap, v, place[0]).Some? && Sensitive(heap, Child(heap, v, place[0]).value, place[1..])
  }

  /** How a scalar shows: itself, if it is a 64-bit integer, a finite number, or a text of the right shape. */
  predicate ScalarShows(found: Json, s: Scalar) {
    var fits := match s
      case Int(n) => -0x8000_0000_0000_0000 <= n < 0x8000_0000_0000_0000
      case Float(finite) => finite != None
      case Text(_, safe) => safe
      case _ => true;
    found == if fits then Leaf(s) else Redacted(UNSUPPORTED)
  }

  /** At most 64 slots, and all keys are identifiers. */
  ghost predicate Keepable(c: Container) {
    match c
    case List(items) => |items| <= 64
    case Dict(entries, odd) => odd == 0 && |entries| <= 64 && forall i :: 0 <= i < |entries| ==> Identifier(entries[i].0)
  }

  lemma KeepableIff(c: Container)
    ensures Keepable(c) <==> Length(c) <= MAX_ITEMS && KeysOk(c)
  {
    match c
    case List(_) =>
    case Dict(entries, _) =>
      forall i | 0 <= i < |entries|
        ensures KeyOk(entries[i].0) <==> Identifier(entries[i].0)
      {
        KeyOkIff(entries[i].0);
      }
      assert forall i :: 0 <= i < |entries| ==> entries[i] in entries;
  }

  /** What is found in the result where the graph has this value: `visited` values come before it, `cyclic` says that it
      is an object on the way to itself. */
  ghost predicate Shows(found: Json, heap: Heap, value: Value, depth: nat, visited: nat, secret: bool, cyclic: bool) {
    if secret then found == Redacted(SENSITIVE)
    else if visited >= 128 then found == Redacted(NODES)
    else if depth > 6 then found == Redacted(DEPTH)
    else match value
    case Plain(s) => ScalarShows(found, s)
    case Foreign => found == Redacted(UNSUPPORTED)
    case Ref(id) =>
      if id !in heap then found == Redacted(UNSUPPORTED)
      else if cyclic then found == Redacted(CYCLE)
      else if !Keepable(heap[id]) then found == Redacted(CONTAINER)
      else match heap[id]
      case List(items) => found.Array? && |found.items| == |items|
      case Dict(entries, _) =>
        && found.Object? && |found.members| == |entries|
        && forall i :: 0 <= i < |entries| ==> found.members[i].key == entries[i].0
  }

  lemma {:induction false} PlaceShows(heap: Heap, v: Value, depth: nat, nodes: nat, visited: nat, active: set<Id>, place: Place)
    requires At(Copy(heap, v, depth, nodes, active).0, place).Some? && Agrees(nodes, visited)
    ensures var found, value := At(Copy(heap, v, depth, nodes, active).0, place).value, ValueAt(heap, v, place);
            && value.Some?
            && Shows(found, heap, value.value, depth + |place|, visited + Before(heap, v, depth, active, place),
                     Sensitive(heap, v, place),
                     value.value.Ref? && (value.value.id in active || OnTheWayTo(heap, v, place, value.value.id)))
    decreases |place|
  {
    if place == [] {
      if v.Ref? && v.id in heap {
        KeepableIff(heap[v.id]);
      }
    } else {
      var count := StepDown(heap, v, depth, nodes, active, place);
      var child := Child(heap, v, place[0]).value;
      var value := ValueAt(heap, child, place[1..]);
      assert ValueAt(heap, v, place) == value;
      if SensitiveSlot(heap, v, place[0]) {
        assert place[1..] == [];
      } else {
        var total := visited + 1 + WeightOfFirst(heap, heap[v.id], place[0], depth + 1, active + {v.id});
        FirstCount(heap, heap[v.id], place[0], depth + 1, nodes + 1, visited + 1, active + {v.id});
        PlaceShows(heap, child, depth + 1, count, total, active + {v.id}, place[1..]);
        assert Sensitive(heap, v, place) == Sensitive(heap, child, place[1..]);
        if value.value.Ref? {
          OnTheWayStep(heap, v, place, value.value.id);
        }
      }
    }
  }

  /** The place is in a dictionary of the graph, under a key that names a secret. */
  ghost predicate Secret(heap: Heap, v: Value, place: Place) {
    place != [] &&
    var n := |place| - 1;
    var parent := ValueAt(heap, v, place[..n]);
    && parent.Some? && parent.value.Ref? && parent.value.id in heap && heap[parent.value.id].Dict?
    && place[n] < |heap[parent.value.id].entries| && NamesSecret(heap[parent.value.id].entries[place[n]].0)
  }

  lemma {:induction false} SecretIff(heap: Heap, v: Value, depth: nat, nodes: nat, active: set<Id>, place: Place)
    requires At(Copy(heap, v, depth, nodes, active).0, place).Some?
    ensures Sensitive(heap, v, place) <==> Secret(heap, v, place)
    decreases |place|
  {
    if place != [] {
      var n := |place| - 1;
      var count := StepDown(heap, v, depth, nodes, active, place);
      if n == 0 {
        assert place[..n] == [];
        match heap[v.id]
        case List(_) =>
        case Dict(entries, _) =>
          assert entries[place[0]] in entries;
          SensitiveIff(entries[place[0]].0);
      } else {
        var child := Child(heap, v, place[0]).value;
        assert place[..n][0] == place[0] && place[..n][1..] == place[1..][..n - 1];
        SecretIff(heap, child, depth + 1, count, active + {v.id}, place[1..]);
      }
    }
  }

  /** Every place of the result is decided by the graph alone: what stands under a key that names a secret is redacted; of
      the others those after the first 128 in the order of the traversal; then what is deeper than six levels; scalars are
      copied; unsupported values, objects inside themselves, and containers that are too wide or have odd keys are redacted;
      and every other container is kept with all its slots, in order and under their keys. */
  lemma EveryPlaceShows(heap: Heap, v: Value, place: Place)
    requires At(Sanitised(heap, v), place).Some?
    ensures var found, value := At(Sanitised(heap, v), place).value, ValueAt(heap, v, place);
            && value.Some?
            && Shows(found, heap, value.value, |place|, Before(heap, v, 0, {}, place), Secret(heap, v, place),
                     value.value.Ref? && OnTheWayTo(heap, v, place, value.value.id))
  {
    PlaceShows(heap, v, 0, 0, 0, {}, place);
    SecretIff(heap, v, 0, 0, {}, place);
  }

  /** A cycle mark stands only for an object that contains itself on this very path, so shared siblings are never marked;
      and an object is never expanded inside itself. */
  lemma CycleMarks(heap: Heap, v: Value, place: Place)
    requires At(Sanitised(heap, v), place).Some?
    ensures var found, value := At(Sanitised(heap, v), place).value, ValueAt(heap, v, place);
            && value.Some?
            && (found == Redacted(CYCLE) ==> value.value.Ref? && OnTheWayTo(heap, v, place, value.value.id))
            && (value.value.Ref? && value.value.id in heap && OnTheWayTo(heap, v, place, value.value.id) ==>
                  found in {Redacted(CYCLE), Redacted(NODES), Redacted(DEPTH), Redacted(SENSITIVE)})
  {
    EveryPlaceShows(heap, v, place);
  }

  lemma {:induction false} FirstWeighLess(heap: Heap, c: Container, m: nat, n: nat, depth: nat, active: set<Id>)
    requires m <= n <= Slots(c)
    ensures WeightOfFirst(heap, c, m, depth, active) <= WeightOfFirst(heap, c, n, depth, active)
    decreases n
  {
    if m < n {
      FirstWeighLess(heap, c, m, n - 1, depth, active);
    }
  }

  lemma {:induction false} BeforeIsLess(heap: Heap, v: Value, depth: nat, nodes: nat, active: set<Id>, place: Place)
    requires At(Copy(heap, v, depth, nodes, active).0, place).Some? && !Sensitive(heap, v, place)
    ensures Before(heap, v, depth, active, place) < Weight(heap, v, depth, active)
    decreases |place|
  {
    if place != [] {
      var count := StepDown(heap, v, depth, nodes, active, place);
      var i, inner := place[0], active + {v.id};
      var child := Child(heap, v, i).value;
      assert Before(heap, child, depth + 1, inner, place[1..]) < Weight(heap, child, depth + 1, inner) by {
        BeforeIsLess(heap, child, depth + 1, count, inner, place[1..]);
      }
      SlotInWeight(heap, v, depth, active, i);
    }
  }

  lemma SlotInWeight(heap: Heap, v: Value, depth: nat, active: set<Id>, i: nat)
    requires Shortcut(heap, v, depth, 0, active).None? && i < Slots(heap[v.id]) && !SensitiveSlot(heap, v, i)
    ensures Child(heap, v, i).Some?
    ensures WeightOfFirst(heap, heap[v.id], i, depth + 1, active + {v.id})
            + Weight(heap, Child(heap, v, i).value, depth + 1, active + {v.id})
          < Weight(heap, v, depth, active)
  {
    SlotInContents(heap, v, heap[v.id], depth + 1, active + {v.id}, i);
    WeightOfContainer(heap, v, depth, active);
  }

  lemma SlotInContents(heap: Heap, v: Value, c: Container, depth: nat, active: set<Id>, i: nat)
    requires v.Ref? && v.id in heap && heap[v.id] == c && i < Slots(c) && !SensitiveSlot(heap, v, i)
    ensures Child(heap, v, i).Some?
    ensures WeightOfFirst(heap, c, i, depth, active) + Weight(heap, Child(heap, v, i).value, depth, active)
         <= WeightOfFirst(heap, c, Slots(c), depth, active)
  {
    SlotWeight(heap, v, i, depth, active);
    FirstWeighLess(heap, c, i + 1, Slots(c), depth, active);
  }

  lemma {:induction false} FirstTooMany(heap: Heap, c: Container, n: nat, depth: nat, active: set<Id>, visited: nat) returns (i: nat)
    requires n <= Slots(c) && visited <= MAX_NODES < visited + WeightOfFirst(heap, c, n, depth, active)
    ensures i < n && visited + WeightOfFirst(heap, c, i, depth, active) <= MAX_NODES
    ensures MAX_NODES < visited + WeightOfFirst(heap, c, i + 1, depth, active)
    decreases n
  {
    if visited + WeightOfFirst(heap, c, n - 1, depth, active) <= MAX_NODES {
      i := n - 1;
    } else {
      i := FirstTooMany(heap, c, n - 1, depth, active, visited);
    }
  }

  /** One step up: a place below a slot that is not sensitive. */
  lemma StepUp(heap: Heap, v: Value, depth: nat, nodes: nat, active: set<Id>, i: nat, rest: Place)
    requires nodes < MAX_NODES && Shortcut(heap, v, depth, 0, active).None? && i < Slots(heap[v.id]) && !SensitiveSlot(heap, v, i)
    ensures var count := CountAfter(heap, heap[v.id], i, depth + 1, nodes + 1, active + {v.id});
            Child(heap, v, i).Some?
            && At(Copy(heap, v, depth, nodes, active).0, [i] + rest)
            == At(Copy(heap, Child(heap, v, i).value, depth + 1, count, active + {v.id}).0, rest)
  {
    assert ([i] + rest)[1..] == rest;
    SlotCopy(heap, v, depth, nodes, active, i);
  }

  lemma WeightOfContainer(heap: Heap, v: Value, depth: nat, active: set<Id>)
    ensures Weight(heap, v, depth, active)
         == 1 + if Shortcut(heap, v, depth, 0, active).Some? then 0
                else WeightOfFirst(heap, heap[v.id], Slots(heap[v.id]), depth + 1, active + {v.id})
  {
  }

  /** When there are too many values to visit in a container there is a slot in which the limit is passed. */
  lemma HeavySlot(heap: Heap, v: Value, c: Container, depth: nat, visited: nat, active: set<Id>) returns (i: nat)
    requires v.Ref? && v.id in heap && heap[v.id] == c
    requires visited <= MAX_NODES < visited + WeightOfFirst(heap, c, Slots(c), depth, active)
    ensures i < Slots(c) && !SensitiveSlot(heap, v, i) && Child(heap, v, i).Some?
    ensures var before := visited + WeightOfFirst(heap, c, i, depth, active);
            before <= MAX_NODES < before + Weight(heap, Child(heap, v, i).value, depth, active)
  {
    i := FirstTooMany(heap, c, Slots(c), depth, active, visited);
    SlotWeight(heap, v, i, depth, active);
  }

  lemma {:induction false} SomeNodeMark(heap: Heap, v: Value, depth: nat, nodes: nat, active: set<Id>) returns (place: Place)
    requires nodes <= MAX_NODES < nodes + Weight(heap, v, depth, active)
    ensures At(Copy(heap, v, depth, nodes, active).0, place) == Some(Redacted(NODES))
    decreases Rank(depth), 1
  {
    if nodes == MAX_NODES {
      place := [];
    } else {
      WeightOfContainer(heap, v, depth, active);
      place := MarkInside(heap, v, heap[v.id], depth, nodes, active);
    }
  }

  /** In the copy the counter agrees: when it comes to that slot it is still within the limit. */
  lemma HeavyChild(heap: Heap, v: Value, c: Container, depth: nat, nodes: nat, active: set<Id>)
    returns (i: nat, child: Value, count: nat)
    requires v.Ref? && v.id in heap && heap[v.id] == c
    requires nodes <= MAX_NODES < nodes + WeightOfFirst(heap, c, Slots(c), depth, active)
    ensures i < Slots(c) && !SensitiveSlot(heap, v, i) && Child(heap, v, i) == Some(child)
    ensures count == CountAfter(heap, c, i, depth, nodes, active)
    ensures count <= MAX_NODES < count + Weight(heap, child, depth, active)
  {
    i := HeavySlot(heap, v, c, depth, nodes, active);
    child := Child(heap, v, i).value;
    count := CountAfter(heap, c, i, depth, nodes, active);
    FirstCount(heap, c, i, depth, nodes, nodes, active);
  }

  lemma {:induction false} MarkInside(heap: Heap, v: Value, c: Container, depth: nat, nodes: nat, active: set<Id>) returns (place: Place)
    requires depth <= MAX_DEPTH && Shortcut(heap, v, depth, 0, active).None? && heap[v.id] == c
    requires nodes < MAX_NODES < nodes + 1 + WeightOfFirst(heap, c, Slots(c), depth + 1, active + {v.id})
    ensures At(Copy(heap, v, depth, nodes, active).0, place) == Some(Redacted(NODES))
    decreases Rank(depth), 0
  {
    var i, child, count := HeavyChild(heap, v, c, depth + 1, nodes + 1, active + {v.id});
    var rest := SomeNodeMark(heap, child, depth + 1, count, active + {v.id});
    place := MarkUp(heap, v, c, depth, nodes, active, i, child, count, rest);
  }

  lemma MarkUp(heap: Heap, v: Value, c: Container, depth: nat, nodes: nat, active: set<Id>, i: nat, child: Value, count: nat, rest: Place)
    returns (place: Place)
    requires nodes < MAX_NODES && Shortcut(heap, v, depth, 0, active).None? && heap[v.id] == c
    requires i < Slots(c) && !SensitiveSlot(heap, v, i) && Child(heap, v, i) == Some(child)
    requires count == CountAfter(heap, c, i, depth + 1, nodes + 1, active + {v.id})
    ensures At(Copy(heap, v, depth, nodes, active).0, place) == At(Copy(heap, child, depth + 1, count, active + {v.id}).0, rest)
  {
    place := [i] + rest;
    StepUp(heap, v, depth, nodes, active, i, rest);
  }

  lemma SlotWeight(heap: Heap, v: Value, i: nat, depth: nat, active: set<Id>)
    requires v.Ref? && v.id in heap && i < Slots(heap[v.id])
    ensures Child(heap, v, i).Some?
    ensures WeightOfFirst(heap, heap[v.id], i + 1, depth, active)
         == WeightOfFirst(heap, heap[v.id], i, depth, active)
            + if SensitiveSlot(heap, v, i) then 0 else Weight(heap, Child(heap, v, i).value, depth, active)
  {
  }

  lemma NodeMarkNeeds(heap: Heap, v: Value, place: Place)
    requires At(Sanitised(heap, v), place) == Some(Redacted(NODES))
    ensures Weight(heap, v, 0, {}) > MAX_NODES
  {
    PlaceShows(heap, v, 0, 0, 0, {}, place);
    if !Sensitive(heap, v, place) {
      BeforeIsLess(heap, v, 0, 0, {}, place);
    }
  }

  /** The node mark appears exactly when there are more values to visit than the limit allows. */
  lemma NodeMarksIff(heap: Heap, v: Value)
    ensures (exists place :: At(Sanitised(heap, v), place) == Some(Redacted(NODES))) <==> Weight(heap, v, 0, {}) > 128
  {
    forall place | At(Sanitised(heap, v), place) == Some(Redacted(NODES))
      ensures Weight(heap, v, 0, {}) > MAX_NODES
    {
      NodeMarkNeeds(heap, v, place);
    }
    if Weight(heap, v, 0, {}) > MAX_NODES {
      var place := SomeNodeMark(heap, v, 0, 0, {});
      assert At(Sanitised(heap, v), place) == Some(Redacted(NODES));
    }
  }

  // Secrets

  /** Wherever an object stands in the result, exactly the values of the keys that name a secret are redacted as such. */
  lemma SecretsAreRedacted(heap: Heap, v: Value, place: Place, i: nat)
    requires var found := At(Sanitised(heap, v), place);
             found.Some? && found.value.Object? && i < |found.value.members|
    ensures var member := At(Sanitised(heap, v), place).value.members[i];
            Identifier(member.key) && (NamesSecret(member.key) <==> member.value == Redacted(SENSITIVE))
  {
    var whole := At(Sanitised(heap, v), place).value;
    EveryPlaceShows(heap, v, place);
    AtSlot(Sanitised(heap, v), place, i);
    assert (place + [i])[..|place|] == place;
    EveryPlaceShows(heap, v, place + [i]);
  }

  lemma {:induction false} AtSlot(j: Json, place: Place, i: nat)
    requires At(j, place).Some?
    ensures At(j, place + [i]) == Part(At(j, place).value, i)
    decreases |place|
  {
    if place == [] {
      assert place + [i] == [i];
      if Part(j, i).Some? {
        assert At(Part(j, i).value, []) == Part(j, i);
      }
    } else {
      assert (place + [i])[1..] == place[1..] + [i];
      AtSlot(Part(j, place[0]).value, place[1..], i);
    }
  }

  /** The same entries but for the values of sensitive keys. */
  predicate SameEntries(a: seq<(string, Value)>, b: seq<(string, Value)>) {
    && |a| == |b|
    && forall i | 0 <= i < |a| :: a[i].0 == b[i].0 && (!SensitiveKey(a[i].0) ==> a[i].1 == b[i].1)
  }

  /** The same graph but for the values of sensitive keys. */
  ghost predicate SameButSecrets(g: Heap, h: Heap) {
    && g.Keys == h.Keys
    && forall id :: id in g ==>
         match (g[id], h[id])
         case (List(a), List(b)) => a == b
         case (Dict(a, m), Dict(b, n)) => m == n && SameEntries(a, b)
         case _ => false
  }

  lemma {:induction false} SameCopy(g: Heap, h: Heap, v: Value, depth: nat, nodes: nat, active: set<Id>)
    requires SameButSecrets(g, h)
    ensures Copy(g, v, depth, nodes, active) == Copy(h, v, depth, nodes, active)
    decreases Rank(depth), 0
  {
    SameShortcut(g, h, v, depth, nodes + 1, active);
    if Shortcut(g, v, depth, nodes + 1, active).None? {
      match g[v.id]
      case List(items) => SameItems(g, h, items, depth + 1, nodes + 1, active + {v.id});
      case Dict(entries, _) => SameMembers(g, h, entries, h[v.id].entries, depth + 1, nodes + 1, active + {v.id});
    }
  }

  lemma SameShortcut(g: Heap, h: Heap, v: Value, depth: nat, nodes: nat, active: set<Id>)
    requires SameButSecrets(g, h)
    ensures Shortcut(g, v, depth, nodes, active) == Shortcut(h, v, depth, nodes, active)
  {
    if v.Ref? && v.id in g && g[v.id].Dict? {
      var a, b := g[v.id].entries, h[v.id].entries;
      assert forall i :: 0 <= i < |a| ==> a[i] in a && b[i] in b && a[i].0 == b[i].0;
    }
  }

  lemma {:induction false} SameItems(g: Heap, h: Heap, items: seq<Value>, depth: nat, nodes: nat, active: set<Id>)
    requires SameButSecrets(g, h)
    ensures CopyItems(g, items, depth, nodes, active) == CopyItems(h, items, depth, nodes, active)
    decreases Rank(depth), |items| + 1
  {
    if items != [] {
      SameItems(g, h, items[..|items| - 1], depth, nodes, active);
      SameCopy(g, h, items[|items| - 1], depth, CopyItems(g, items[..|items| - 1], depth, nodes, active).1, active);
    }
  }

  lemma {:induction false} SameMembers(g: Heap, h: Heap, a: seq<(string, Value)>, b: seq<(string, Value)>,
                                         depth: nat, nodes: nat, active: set<Id>)
    requires SameButSecrets(g, h) && SameEntries(a, b)
    ensures CopyEntries(g, a, depth, nodes, active) == CopyEntries(h, b, depth, nodes, active)
    decreases Rank(depth), |a| + 1
  {
    if a != [] {
      var n := |a| - 1;
      SameMembers(g, h, a[..n], b[..n], depth, nodes, active);
      SameCopy(g, h, a[n].1, depth, CopyEntries(g, a[..n], depth, nodes, active).1, active);
    }
  }

  /** The result says nothing about the values of sensitive keys, not even through the node budget: graphs that differ only
      in such values are sanitised to the same result. */
  lemma SecretsDoNotShow(g: Heap, h: Heap, v: Value)
    requires SameButSecrets(g, h)
    ensures Sanitised(g, v) == Sanitised(h, v)
  {
    SameCopy(g, h, v, 0, 0, {});
  }
}
