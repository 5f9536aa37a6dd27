/** Object metadata: Python dicts keep insertion order, the adapter lower-cases every key, and of
    two keys that become equal the later one wins (app/adapters/object_storage.py:140-147,
    347-350). */
module Metadata {
  import opened Basics
  import opened Text

  /** A dict in insertion order. */
  type Dict = seq<(string, string)>

  /** `d[key] = value`: an existing key keeps its place. */
  function Put(d: Dict, key: string, value: string): Dict {
    if d == [] then [(key, value)]
    else if d[0].0 == key then [(key, value)] + d[1..]
    else [d[0]] + Put(d[1..], key, value)
  }

  /** The dict comprehension over lower-cased keys. */
  function LowerKeys(d: Dict): map<string, string> {
    if d == [] then map[]
    else LowerKeys(d[..|d| - 1])[Lower(d[|d| - 1].0) := d[|d| - 1].1]
  }

  function Get(m: map<string, string>, key: string): Option<string> {
    if key in m then Some(m[key]) else None
  }

  /** The value that wins for `key` once all keys are lower-cased. */
  function Winner(d: Dict, key: string): Option<string> {
    if d == [] then None
    else
      var later := Winner(d[1..], key);
      if later.Some? then later else if Lower(d[0].0) == key then Some(d[0].1) else None
  }

  /** A key that is spelled differently, stands after `key` and lower-cases to it. */
  function Shadow(d: Dict, key: string): Option<string> {
    if d == [] then None
    else if d[0].0 == key then Winner(d[1..], key)
    else Shadow(d[1..], key)
  }

  lemma {:induction false} WinnerSnoc(d: Dict, e: (string, string), key: string)
    ensures Winner(d + [e], key) == if Lower(e.0) == key then Some(e.1) else Winner(d, key)
  {
    if d == [] {
      assert ([] + [e])[1..] == [] && d + [e] == [e];
    } else {
      assert (d + [e])[1..] == d[1..] + [e];
      WinnerSnoc(d[1..], e, key);
    }
  }

  lemma {:induction false} LowerKeysGet(d: Dict, key: string)
    ensures Get(LowerKeys(d), key) == Winner(d, key)
  {
    if d != [] {
      var front := d[..|d| - 1];
      LowerKeysGet(front, key);
      assert d == front + [d[|d| - 1]];
      WinnerSnoc(front, d[|d| - 1], key);
    }
  }

  /** Writing a lower-case key decides its value unless a differently spelled key comes later. */
  lemma {:induction false} PutWins(d: Dict, key: string, value: string)
    requires Lower(key) == key
    ensures Winner(Put(d, key, value), key) == Some(if Shadow(d, key).Some? then Shadow(d, key).value else value)
  {
    if d == [] {
      assert [(key, value)][1..] == [];
    } else if d[0].0 == key {
      assert ([(key, value)] + d[1..])[1..] == d[1..];
    } else {
      PutWins(d[1..], key, value);
      assert ([d[0]] + Put(d[1..], key, value))[1..] == Put(d[1..], key, value);
    }
  }

  /** Writing one lower-case key does not touch another. */
  lemma {:induction false} PutLeaves(d: Dict, key: string, value: string, other: string)
    requires Lower(key) == key && Lower(other) == other && key != other
    ensures Winner(Put(d, key, value), other) == Winner(d, other)
    ensures Shadow(Put(d, key, value), other) == Shadow(d, other)
  {
    if d == [] {
      assert [(key, value)][1..] == [];
    } else if d[0].0 == key {
      assert ([(key, value)] + d[1..])[1..] == d[1..];
    } else {
      PutLeaves(d[1..], key, value, other);
      assert ([d[0]] + Put(d[1..], key, value))[1..] == Put(d[1..], key, value);
    }
  }

  /** Several keys written one after the other. */
  function PutAll(d: Dict, entries: seq<(string, string)>): Dict
    decreases |entries|
  {
    if entries == [] then d else PutAll(Put(d, entries[0].0, entries[0].1), entries[1..])
  }

  ghost predicate LowerCaseKeys(entries: seq<(string, string)>) {
    && (forall i | 0 <= i < |entries| :: Lower(entries[i].0) == entries[i].0)
    && (forall i, j | 0 <= i < j < |entries| :: entries[i].0 != entries[j].0)
  }

  lemma {:induction false} PutAllLeaves(d: Dict, entries: seq<(string, string)>, other: string)
    requires LowerCaseKeys(entries) && Lower(other) == other
    requires forall i | 0 <= i < |entries| :: entries[i].0 != other
    ensures Winner(PutAll(d, entries), other) == Winner(d, other)
    decreases |entries|
  {
    if entries != [] {
      PutLeaves(d, entries[0].0, entries[0].1, other);
      PutAllLeaves(Put(d, entries[0].0, entries[0].1), entries[1..], other);
    }
  }

  /** After writing distinct lower-case keys, each of them has its new value unless the original
      dict shadows it. */
  lemma {:induction false} PutAllWins(d: Dict, entries: seq<(string, string)>, i: nat)
    requires LowerCaseKeys(entries) && i < |entries|
    ensures Get(LowerKeys(PutAll(d, entries)), entries[i].0) ==
            Some(if Shadow(d, entries[i].0).Some? then Shadow(d, entries[i].0).value else entries[i].1)
    decreases |entries|
  {
    var key, value := entries[0].0, entries[0].1;
    var d' := Put(d, key, value);
    LowerKeysGet(PutAll(d, entries), entries[i].0);
    if i == 0 {
      PutWins(d, key, value);
      PutAllLeaves(d', entries[1..], key);
    } else {
      PutLeaves(d, key, value, entries[i].0);
      PutAllWins(d', entries[1..], i - 1);
      LowerKeysGet(PutAll(d', entries[1..]), entries[i].0);
    }
  }

  predicate HasAll(metadata: map<string, string>, entries: seq<(string, string)>) {
    forall i | 0 <= i < |entries| :: Get(metadata, entries[i].0) == Some(entries[i].1)
  }

  /** No entry of `d` overrides one of `entries` by spelling its key with other capitals further
      down the dict. */
  predicate ShadowsNone(d: Dict, entries: seq<(string, string)>) {
    forall i | 0 <= i < |entries| ::
      Shadow(d, entries[i].0) == None || Shadow(d, entries[i].0) == Some(entries[i].1)
  }

  /** Entries written into a dict are all found again exactly when the dict shadows none of them. */
  lemma HasAllIffShadowsNone(d: Dict, entries: seq<(string, string)>)
    requires LowerCaseKeys(entries)
    ensures HasAll(LowerKeys(PutAll(d, entries)), entries) <==> ShadowsNone(d, entries)
  {
    forall i | 0 <= i < |entries|
      ensures Get(LowerKeys(PutAll(d, entries)), entries[i].0) ==
              Some(if Shadow(d, entries[i].0).Some? then Shadow(d, entries[i].0).value else entries[i].1)
    {
      PutAllWins(d, entries, i);
    }
  }

  predicate IsPlainKeyChar(c: char) {
    'a' <= c <= 'z' || '0' <= c <= '9' || c == '-'
  }

  /** Keys of plain characters and of different lengths are distinct lower-case keys. */
  lemma PlainKeysAreLower(entries: seq<(string, string)>)
    requires forall i, j | 0 <= i < |entries| && 0 <= j < |entries[i].0| :: IsPlainKeyChar(entries[i].0[j])
    requires forall i, j | 0 <= i < j < |entries| :: |entries[i].0| != |entries[j].0|
    ensures LowerCaseKeys(entries)
  {
    forall i | 0 <= i < |entries| ensures Lower(entries[i].0) == entries[i].0 {
      LowerFixed(entries[i].0);
    }
  }

  /** Lower-casing is done again when metadata is read back, and changes nothing. */
  lemma {:induction false} LowerKeysAreLower(d: Dict)
    ensures forall k | k in LowerKeys(d) :: Lower(k) == k
  {
    if d != [] {
      LowerKeysAreLower(d[..|d| - 1]);
      LowerIdempotent(d[|d| - 1].0);
    }
  }
}
