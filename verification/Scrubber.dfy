/** The log scrubber: a depth-bounded walk over nested values that masks what stands under
    sensitive keys, and the in-place loops over the event dictionary.
 */
module Scrubber {
  import opened Common

  /** A key is a string or something else that cannot be sensitive. */
  datatype Key = Str(text: string) | Other(n: int)

  /** A logged value; `Atom` is any value that is not a container. */
  datatype Value =
    | Null
    | Atom(repr: string)
    | Dict(entries: seq<Item>)
    | List(items: seq<Value>)
    | Tuple(items: seq<Value>)

  datatype Item = Item(key: Key, value: Value)

  const MASK := Atom("***")
  const MAX_DEPTH := 6

  const DENYLIST: seq<string> := [
    "password", "passwd", "secret", "api_key", "apikey", "auth", "authorization", "credentials",
    "privatekey", "private_key", "token", "jwt", "session", "csrf", "csrftoken", "cookie",
    "set-cookie", "x-api-key", "x-csrftoken", "x-forwarded-for", "remote_addr", "ip_address",
    "access_token", "refresh_token", "token_hash", "password_hash"
  ]

  function Lower(s: string): string {
    seq(|s|, i requires 0 <= i < |s| => if 'A' <= s[i] <= 'Z' then s[i] - 'A' + 'a' else s[i])
  }

  predicate Contains(s: string, needle: string) {
    |s| >= |needle| && (s[..|needle|] == needle || (s != [] && Contains(s[1..], needle)))
  }

  predicate IsSensitive(key: string) {
    exists n :: 0 <= n < |DENYLIST| && Contains(Lower(key), DENYLIST[n])
  }

  predicate IsSensitiveKey(key: Key) {
    key.Str? && IsSensitive(key.text)
  }

  // ---- Which keys are sensitive ----

  /** The letter of a key is this character, or its upper case. */
  predicate SameLetter(c: char, letter: char) {
    c == letter || ('A' <= c <= 'Z' && letter == c - 'A' + 'a')
  }

  /** Somewhere in the key this word is written, in any mix of cases. */
  ghost predicate Mentions(key: string, word: string) {
    exists p: nat :: p + |word| <= |key| && WrittenAt(key, word, p)
  }

  predicate WrittenAt(key: string, word: string, p: nat)
    requires p + |word| <= |key|
  {
    forall i :: 0 <= i < |word| ==> SameLetter(key[p + i], word[i])
  }

  predicate FoundAt(s: string, needle: string, p: nat)
    requires p + |needle| <= |s|
  {
    s[p..p + |needle|] == needle
  }

  lemma {:induction false} ContainsSomewhere(s: string, needle: string)
    ensures Contains(s, needle) <==> exists p: nat :: p + |needle| <= |s| && FoundAt(s, needle, p)
    decreases |s|
  {
    if |s| >= |needle| { assert FoundAt(s, needle, 0) <==> s[..|needle|] == needle; }
    if s != [] {
      ContainsSomewhere(s[1..], needle);
      forall p: nat | p + |needle| <= |s[1..]| ensures FoundAt(s[1..], needle, p) <==> FoundAt(s, needle, p + 1) {
        assert s[1..][p..p + |needle|] == s[p + 1..p + 1 + |needle|];
      }
      if p: nat :| p + |needle| <= |s| && FoundAt(s, needle, p) {
        assert p > 0 ==> FoundAt(s[1..], needle, p - 1);
      }
    }
  }

  /** The denied word is a factor of the key: the in operator on strings. */
  lemma ContainsIsFactor(s: string, needle: string)
    ensures Contains(s, needle) <==> exists p, q :: s == p + needle + q
  {
    ContainsSomewhere(s, needle);
    hide Contains;
    if p: nat :| p + |needle| <= |s| && FoundAt(s, needle, p) { assert s == s[..p] + needle + s[p + |needle|..]; }
    if p, q :| s == p + needle + q { assert FoundAt(s, needle, |p|); }
  }

  lemma MentionsIsContains(key: string, word: string)
    requires forall i :: 0 <= i < |word| ==> !('A' <= word[i] <= 'Z')
    ensures Contains(Lower(key), word) <==> Mentions(key, word)
  {
    ContainsSomewhere(Lower(key), word);
    hide Contains;
    forall p: nat | p + |word| <= |key| ensures WrittenAt(key, word, p) <==> FoundAt(Lower(key), word, p) {
      var found := Lower(key)[p..p + |word|];
      assert forall i :: 0 <= i < |word| ==> found[i] == Lower(key)[p + i];
      assert forall i :: 0 <= i < |word| ==> (SameLetter(key[p + i], word[i]) <==> found[i] == word[i]);
    }
  }

  lemma DeniedWordsAreLower(n: nat)
    requires n < |DENYLIST|
    ensures forall i :: 0 <= i < |DENYLIST[n]| ==> !('A' <= DENYLIST[n][i] <= 'Z')
  {
  }

  lemma SensitiveMentions(key: string)
    ensures IsSensitive(key) <==> exists n :: 0 <= n < |DENYLIST| && Mentions(key, DENYLIST[n])
  {
    forall n | 0 <= n < |DENYLIST| ensures Contains(Lower(key), DENYLIST[n]) <==> Mentions(key, DENYLIST[n]) {
      DeniedWordsAreLower(n);
      MentionsIsContains(key, DENYLIST[n]);
    }
    hide Contains, Mentions, Lower;
  }

  lemma DenylistSpelled()
    ensures |DENYLIST| == 26
    ensures DENYLIST[0] == "password" && DENYLIST[1] == "passwd" && DENYLIST[2] == "secret"
            && DENYLIST[3] == "api_key" && DENYLIST[4] == "apikey" && DENYLIST[5] == "auth"
            && DENYLIST[6] == "authorization" && DENYLIST[7] == "credentials" && DENYLIST[8] == "privatekey"
            && DENYLIST[9] == "private_key" && DENYLIST[10] == "token" && DENYLIST[11] == "jwt"
            && DENYLIST[12] == "session" && DENYLIST[13] == "csrf" && DENYLIST[14] == "csrftoken"
            && DENYLIST[15] == "cookie" && DENYLIST[16] == "set-cookie" && DENYLIST[17] == "x-api-key"
            && DENYLIST[18] == "x-csrftoken" && DENYLIST[19] == "x-forwarded-for" && DENYLIST[20] == "remote_addr"
            && DENYLIST[21] == "ip_address" && DENYLIST[22] == "access_token" && DENYLIST[23] == "refresh_token"
            && DENYLIST[24] == "token_hash" && DENYLIST[25] == "password_hash"
  {
  }

  /** A key is sensitive if and only if it mentions one of these words, in any mix of cases. */
  lemma SensitiveExactly(key: string)
    ensures IsSensitive(key) <==>
            || Mentions(key, "password") || Mentions(key, "passwd") || Mentions(key, "secret")
            || Mentions(key, "api_key") || Mentions(key, "apikey") || Mentions(key, "auth")
            || Mentions(key, "authorization") || Mentions(key, "credentials") || Mentions(key, "privatekey")
            || Mentions(key, "private_key") || Mentions(key, "token") || Mentions(key, "jwt")
            || Mentions(key, "session") || Mentions(key, "csrf") || Mentions(key, "csrftoken")
            || Mentions(key, "cookie") || Mentions(key, "set-cookie") || Mentions(key, "x-api-key")
            || Mentions(key, "x-csrftoken") || Mentions(key, "x-forwarded-for") || Mentions(key, "remote_addr")
            || Mentions(key, "ip_address") || Mentions(key, "access_token") || Mentions(key, "refresh_token")
            || Mentions(key, "token_hash") || Mentions(key, "password_hash")
  {
    SensitiveMentions(key);
    DenylistSpelled();
    hide Mentions, IsSensitive;
  }

  /** Keys that are not text are never sensitive. */
  lemma OnlyTextIsSensitive(key: Key)
    ensures IsSensitiveKey(key) <==> exists text :: key == Str(text) && IsSensitive(text)
  {
    hide IsSensitive;
    if key.Str? { assert key == Str(key.text); }
  }

  // ---- The walk ----

  function ScrubItems(entries: seq<Item>, depth: nat): (r: seq<Item>)
    ensures |r| == |entries|
    ensures forall i :: 0 <= i < |entries| ==> r[i].key == entries[i].key
    ensures forall i :: 0 <= i < |entries| ==>
              r[i].value == if IsSensitiveKey(entries[i].key) then MASK else Scrub(entries[i].value, depth)
    decreases depth, 1, |entries|
  {
    if entries == [] then []
    else
      var first := entries[0];
      [Item(first.key, if IsSensitiveKey(first.key) then MASK else Scrub(first.value, depth))]
      + ScrubItems(entries[1..], depth)
  }

  function ScrubAll(items: seq<Value>, depth: nat): (r: seq<Value>)
    ensures |r| == |items|
    ensures forall i :: 0 <= i < |items| ==> r[i] == Scrub(items[i], depth)
    decreases depth, 1, |items|
  {
    if items == [] then [] else [Scrub(items[0], depth)] + ScrubAll(items[1..], depth)
  }

  /** The value with everything under sensitive keys masked, looking `depth` container levels down. */
  function Scrub(v: Value, depth: nat): Value
    decreases depth, 0
  {
    if depth == 0 then v
    else
      match v
      case Dict(entries) => Dict(ScrubItems(entries, depth - 1))
      case List(items) => List(ScrubAll(items, depth - 1))
      case Tuple(items) => Tuple(ScrubAll(items, depth - 1))
      case _ => v
  }

  /** _scrub_value as it runs: each container is rebuilt element by element. */
  method ScrubValue(v: Value, depth: nat) returns (r: Value)
    ensures r == Scrub(v, depth)
    decreases depth, 0
  {
    hide ScrubItems, ScrubAll;
    if depth == 0 { return v; }
    match v {
      case Dict(entries) =>
        var scrubbed := ScrubDictionary(entries, depth - 1);
        return Dict(scrubbed);
      case List(items) =>
        var scrubbed := ScrubSequence(items, depth - 1);
        return List(scrubbed);
      case Tuple(items) =>
        var scrubbed := ScrubSequence(items, depth - 1);
        return Tuple(scrubbed);
      case _ => return v;
    }
  }

  method ScrubDictionary(entries: seq<Item>, depth: nat) returns (scrubbed: seq<Item>)
    ensures scrubbed == ScrubItems(entries, depth)
    decreases depth, 1
  {
    hide IsSensitive, Scrub, ScrubItems;
    scrubbed := [];
    for n := 0 to |entries|
      invariant scrubbed == ScrubItems(entries, depth)[..n]
    {
      var item := entries[n];
      if IsSensitiveKey(item.key) {
        scrubbed := scrubbed + [Item(item.key, MASK)];
      } else {
        var value := ScrubValue(item.value, depth);
        scrubbed := scrubbed + [Item(item.key, value)];
      }
      assert scrubbed[n] == ScrubItems(entries, depth)[n];
    }
  }

  method ScrubSequence(items: seq<Value>, depth: nat) returns (scrubbed: seq<Value>)
    ensures scrubbed == ScrubAll(items, depth)
    decreases depth, 1
  {
    hide Scrub, ScrubAll;
    scrubbed := [];
    for n := 0 to |items|
      invariant scrubbed == ScrubAll(items, depth)[..n]
    {
      var value := ScrubValue(items[n], depth);
      scrubbed := scrubbed + [value];
      assert scrubbed[n] == ScrubAll(items, depth)[n];
    }
  }

  // ---- What it does at every position ----

  function Children(v: Value): nat {
    match v
    case Dict(entries) => |entries|
    case List(items) => |items|
    case Tuple(items) => |items|
    case _ => 0
  }

  function Child(v: Value, i: nat): Value
    requires i < Children(v)
  {
    if v.Dict? then v.entries[i].value else v.items[i]
  }

  predicate SensitiveEdge(v: Value, i: nat)
    requires i < Children(v)
  {
    v.Dict? && IsSensitiveKey(v.entries[i].key)
  }

  /** The value at the end of a path of child positions, if the path exists. */
  function At(v: Value, path: seq<nat>): Option<Value> {
    if path == [] then Some(v)
    else if path[0] < Children(v) then At(Child(v, path[0]), path[1..])
    else None
  }

  /** How many edges of the path come before its first sensitive one; all of them if none is. */
  function CleanEdges(v: Value, path: seq<nat>): nat
    requires At(v, path).Some?
  {
    if path == [] || SensitiveEdge(v, path[0]) then 0 else 1 + CleanEdges(Child(v, path[0]), path[1..])
  }

  /** Same kind of value, same number of children, same keys; atoms are equal. */
  predicate SameShape(a: Value, b: Value) {
    match (a, b)
    case (Dict(p), Dict(q)) => |p| == |q| && forall i :: 0 <= i < |p| ==> p[i].key == q[i].key
    case (List(p), List(q)) => |p| == |q|
    case (Tuple(p), Tuple(q)) => |p| == |q|
    case _ => a == b
  }

  lemma ScrubKeepsShape(v: Value, depth: nat)
    ensures SameShape(v, Scrub(v, depth)) && Children(Scrub(v, depth)) == Children(v)
    ensures Scrub(v, depth) == Null <==> v == Null
    ensures depth == 0 ==> Scrub(v, depth) == v
    ensures depth > 0 ==> forall i :: 0 <= i < Children(v) ==>
              Child(Scrub(v, depth), i) == if SensitiveEdge(v, i) then MASK else Scrub(Child(v, i), depth - 1)
  {
  }

  /** Exactness. Follow any path of the original value: if a sensitive key stands on it within the
      first `depth` edges, the value right under that key is the mask; otherwise the path still
      ends at the same value, scrubbed to the depth that is left, or untouched beyond it. */
  lemma {:induction false} ScrubAt(v: Value, depth: nat, path: seq<nat>)
    requires At(v, path).Some?
    ensures CleanEdges(v, path) <= |path|
    ensures var clean := CleanEdges(v, path);
            if clean < |path| && clean < depth
            then At(Scrub(v, depth), path[..clean + 1]) == Some(MASK)
            else At(Scrub(v, depth), path)
                 == Some(if |path| <= depth then Scrub(At(v, path).value, depth - |path|) else At(v, path).value)
    decreases |path|
  {
    hide IsSensitive, Scrub;
    if path != [] {
      var i := path[0];
      ScrubKeepsShape(v, depth);
      if SensitiveEdge(v, i) {
        assert path[..1][1..] == [];
      } else {
        ScrubAt(Child(v, i), if depth > 0 then depth - 1 else 0, path[1..]);
        var clean := CleanEdges(v, path);
        if clean < |path| && clean < depth {
          assert path[..clean + 1][1..] == path[1..][..clean];
        }
      }
    }
  }

  lemma MaskIsLeaf(path: seq<nat>)
    ensures At(MASK, path).Some? <==> path == []
  {
  }

  /** The scrubbed value has no positions of its own: every path of it is one of the original that
      passes no mask. */
  lemma {:induction false} ScrubAddsNothing(v: Value, depth: nat, path: seq<nat>)
    requires At(Scrub(v, depth), path).Some?
    ensures At(v, path).Some?
    ensures CleanEdges(v, path) + 1 >= |path| || CleanEdges(v, path) >= depth
    decreases |path|
  {
    hide IsSensitive, Scrub;
    if path != [] {
      ScrubKeepsShape(v, depth);
      if depth == 0 {
      } else if SensitiveEdge(v, path[0]) {
        MaskIsLeaf(path[1..]);
        assert At(v, path) == At(Child(v, path[0]), []);
      } else {
        ScrubAddsNothing(Child(v, path[0]), depth - 1, path[1..]);
      }
    }
  }

  lemma {:induction false} ScrubTwice(v: Value, depth: nat)
    ensures Scrub(Scrub(v, depth), depth) == Scrub(v, depth)
    decreases depth, 0
  {
    hide IsSensitive, ScrubItems, ScrubAll;
    if depth > 0 {
      match v
      case Dict(entries) =>
        ScrubItemsTwice(entries, depth - 1);
      case List(items) => ScrubAllTwice(items, depth - 1);
      case Tuple(items) => ScrubAllTwice(items, depth - 1);
      case _ =>
    }
  }

  lemma {:induction false} ScrubItemsTwice(entries: seq<Item>, depth: nat)
    ensures ScrubItems(ScrubItems(entries, depth), depth) == ScrubItems(entries, depth)
    decreases depth, 1
  {
    hide IsSensitive, Scrub, ScrubItems;
    var once := ScrubItems(entries, depth);
    var twice := ScrubItems(once, depth);
    forall i | 0 <= i < |entries| ensures twice[i] == once[i] {
      ScrubTwice(entries[i].value, depth);
    }
    assert twice == once;
  }

  lemma {:induction false} ScrubAllTwice(items: seq<Value>, depth: nat)
    ensures ScrubAll(ScrubAll(items, depth), depth) == ScrubAll(items, depth)
    decreases depth, 1
  {
    hide Scrub, ScrubAll;
    var once := ScrubAll(items, depth);
    var twice := ScrubAll(once, depth);
    forall i | 0 <= i < |items| ensures twice[i] == once[i] {
      ScrubTwice(items[i], depth);
    }
    assert twice == once;
  }

  // ---- The event dictionary ----

  function ScrubEntry(key: string, v: Value): Value {
    if IsSensitive(key) then MASK else Scrub(v, MAX_DEPTH)
  }

  function ScrubEvent(event: map<string, Value>): map<string, Value> {
    map k | k in event :: ScrubEntry(k, event[k])
  }

  function DropNulls(event: map<string, Value>): map<string, Value> {
    map k | k in event && event[k] != Null :: event[k]
  }

  class EventDict {
    var entries: map<string, Value>

    constructor (event: map<string, Value>)
      ensures entries == event
    {
      entries := event;
    }

    /** A snapshot of the keys, each once, in some order. */
    method Keys() returns (keys: seq<string>)
      ensures forall k :: k in keys <==> k in entries
      ensures forall i, j :: 0 <= i < j < |keys| ==> keys[i] != keys[j]
    {
      keys := [];
      var rest := entries.Keys;
      while rest != {}
        invariant rest <= entries.Keys
        invariant forall k :: k in keys <==> k in entries && k !in rest
        invariant forall i, j :: 0 <= i < j < |keys| ==> keys[i] != keys[j]
      {
        var k :| k in rest;
        keys, rest := keys + [k], rest - {k};
      }
    }

    method ScrubPii()
      modifies this
      ensures entries == ScrubEvent(old(entries))
    {
      hide IsSensitive;
      var keys := Keys();
      for n := 0 to |keys|
        invariant entries.Keys == old(entries).Keys
        invariant forall i :: 0 <= i < n ==> entries[keys[i]] == ScrubEntry(keys[i], old(entries)[keys[i]])
        invariant forall i :: n <= i < |keys| ==> entries[keys[i]] == old(entries)[keys[i]]
      {
        var key := keys[n];
        if IsSensitive(key) {
          entries := entries[key := MASK];
        } else {
          var scrubbed := ScrubValue(entries[key], MAX_DEPTH);
          entries := entries[key := scrubbed];
        }
      }
      forall k | k in entries ensures entries[k] == ScrubEntry(k, old(entries)[k]) {
        var i :| 0 <= i < |keys| && keys[i] == k;
      }
    }

    method DropNoneValues()
      modifies this
      ensures entries == DropNulls(old(entries))
    {
      var keys := Keys();
      for n := 0 to |keys|
        invariant forall k :: k in entries ==> k in old(entries) && entries[k] == old(entries)[k]
        invariant forall i :: 0 <= i < n ==> (keys[i] in entries <==> old(entries)[keys[i]] != Null)
        invariant forall i :: n <= i < |keys| ==> keys[i] in entries
      {
        if entries[keys[n]] == Null { entries := entries - {keys[n]}; }
      }
      forall k | k in old(entries) ensures k in entries <==> old(entries)[k] != Null {
        var i :| 0 <= i < |keys| && keys[i] == k;
      }
    }

    /** The two processors in the order they are configured. */
    method Process()
      modifies this
      ensures entries == DropNulls(ScrubEvent(old(entries)))
    {
      ScrubPii();
      DropNoneValues();
    }
  }

  /** What is left of an event: every sensitive key with the mask, nulls included, and every other
      key that is not null with its scrubbed value. */
  lemma ProcessedExactly(event: map<string, Value>, k: string)
    ensures var out := DropNulls(ScrubEvent(event));
            && (k in out <==> k in event && (IsSensitive(k) || event[k] != Null))
            && (k in out ==> out[k] == if IsSensitive(k) then Atom("***") else Scrub(event[k], 6))
  {
  }

  /** A key with a denied word in it, in any mix of cases and between any other text, shows the mask;
      a key without any keeps its scrubbed value. */
  lemma DeniedWordsAreMasked(event: map<string, Value>, p: string, written: string, q: string, n: nat)
    requires n < |DENYLIST| && |written| == |DENYLIST[n]|
    requires forall i :: 0 <= i < |written| ==> SameLetter(written[i], DENYLIST[n][i])
    requires p + written + q in event
    ensures var key, out := p + written + q, DropNulls(ScrubEvent(event));
            key in out && out[key] == Atom("***")
  {
    var key := p + written + q;
    assert WrittenAt(key, DENYLIST[n], |p|) by {
      assert forall i :: 0 <= i < |written| ==> key[|p| + i] == written[i];
    }
    assert Mentions(key, DENYLIST[n]);
    SensitiveMentions(key);
    ProcessedExactly(event, key);
  }

  lemma OtherKeysAreKept(event: map<string, Value>, key: string)
    requires key in event && event[key] != Null
    requires forall n :: 0 <= n < |DENYLIST| ==> !Mentions(key, DENYLIST[n])
    ensures var out := DropNulls(ScrubEvent(event)); key in out && out[key] == Scrub(event[key], 6)
  {
    SensitiveMentions(key);
    ProcessedExactly(event, key);
  }

  /** Running the pair again changes nothing. */
  lemma ProcessedOnce(event: map<string, Value>)
    ensures var out := DropNulls(ScrubEvent(event)); DropNulls(ScrubEvent(out)) == out
  {
    hide IsSensitive;
    var out := DropNulls(ScrubEvent(event));
    forall k ensures k in DropNulls(ScrubEvent(out)) <==> k in out {
      ProcessedExactly(event, k);
      ProcessedExactly(out, k);
    }
    forall k | k in out ensures DropNulls(ScrubEvent(out))[k] == out[k] {
      ProcessedExactly(event, k);
      ProcessedExactly(out, k);
      ScrubTwice(event[k], MAX_DEPTH);
    }
  }

  /** Inside a processed event: following any path under a non-sensitive key, a sensitive key
      within six levels shows the mask, and what lies deeper than six levels is as it was. */
  lemma EventAt(event: map<string, Value>, k: string, path: seq<nat>)
    requires k in event && !IsSensitive(k) && event[k] != Null && At(event[k], path).Some?
    ensures var out := DropNulls(ScrubEvent(event));
            var clean := CleanEdges(event[k], path);
            && k in out && clean <= |path|
            && (clean < |path| && clean < 6 ==> At(out[k], path[..clean + 1]) == Some(Atom("***")))
            && (clean >= 6 ==> At(out[k], path) == At(event[k], path))
  {
    hide IsSensitive, Scrub;
    ProcessedExactly(event, k);
    ScrubAt(event[k], MAX_DEPTH, path);
    ScrubKeepsShape(At(event[k], path).value, 0);
  }
}
