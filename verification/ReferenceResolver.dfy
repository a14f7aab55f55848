/**
  Canonical references (internal/application/ai_reference.go): the key under which
  model-produced IDs are compared, and the resolver that maps keys to canonical IDs
  with tombstones for ambiguous ones.
 */
module ReferenceResolver {
  import opened Options

  // ------------------------------------------------------------------------- the key

  const SEPARATOR := '-'

  /** What Unicode says of a character. */
  datatype Text = Text(isWord: char -> bool, lower: char -> char, isSpace: char -> bool)

  /** Lower-casing a character twice is lower-casing it once; the separator is neither word nor space. */
  ghost predicate Sane(t: Text) {
    && !t.isWord(SEPARATOR) && !t.isSpace(SEPARATOR) && t.lower(SEPARATOR) == SEPARATOR
    && (forall c :: t.lower(t.lower(c)) == t.lower(c))
    && (forall c :: t.isWord(c) ==> !t.isSpace(c))
  }

  function Lower(t: Text, s: string): string {
    seq(|s|, i requires 0 <= i < |s| => t.lower(s[i]))
  }

  function TrimLeft(drop: char -> bool, s: string): string {
    if s != [] && drop(s[0]) then TrimLeft(drop, s[1..]) else s
  }

  function TrimRight(drop: char -> bool, s: string): string {
    if s != [] && drop(s[|s| - 1]) then TrimRight(drop, s[..|s| - 1]) else s
  }

  function Trim(t: Text, s: string): string {
    TrimRight(t.isSpace, TrimLeft(t.isSpace, s))
  }

  ghost predicate WordsOnly(t: Text, s: string) {
    forall i :: 0 <= i < |s| ==> t.isWord(s[i]) || s[i] == SEPARATOR
  }

  /** No separator at either end, no two in a row, and word characters otherwise. */
  ghost predicate Joined(t: Text, s: string) {
    && WordsOnly(t, s)
    && (s != [] ==> s[0] != SEPARATOR && s[|s| - 1] != SEPARATOR)
    && (forall i :: 0 <= i < |s| - 1 ==> !(s[i] == SEPARATOR && s[i + 1] == SEPARATOR))
  }

  /** The key after the characters of `s`, and whether a separator is pending. */
  function Build(t: Text, s: string): (string, bool) {
    if s == [] then ([], false)
    else
      var (key, pending) := Build(t, s[..|s| - 1]);
      var c := s[|s| - 1];
      if !t.isWord(c) then (key, true)
      else (key + (if pending && key != [] then [SEPARATOR] else []) + [c], false)
  }

  function TrimSeparators(s: string): string {
    TrimRight(c => c == SEPARATOR, TrimLeft(c => c == SEPARATOR, s))
  }

  function Key(t: Text, value: string): string {
    TrimSeparators(Build(t, Lower(t, Trim(t, value))).0)
  }

  method CanonicalReferenceKey(t: Text, value: string) returns (key: string)
    ensures key == Key(t, value)
  {
    var s := Lower(t, Trim(t, value));
    var b: string := [];
    var pendingSeparator := false;
    for i := 0 to |s|
      invariant (b, pendingSeparator) == Build(t, s[..i])
    {
      assert s[..i + 1][..i] == s[..i];
      if t.isWord(s[i]) {
        assert b + [] == b;
        if pendingSeparator && |b| > 0 {
          b := b + [SEPARATOR];
        }
        pendingSeparator := false;
        b := b + [s[i]];
        continue;
      }
      pendingSeparator := true;
    }
    assert s[..|s|] == s;
    key := TrimSeparators(b);
  }

  lemma {:induction false} BuildIsJoined(t: Text, s: string)
    requires !t.isWord(SEPARATOR)
    ensures Joined(t, Build(t, s).0)
  {
    if s != [] {
      BuildIsJoined(t, s[..|s| - 1]);
    }
  }

  lemma JoinedNeedsNoTrim(t: Text, s: string)
    requires Joined(t, s)
    ensures TrimSeparators(s) == s
  {}

  /** The runs of word characters of `s`, in order. */
  function Words(t: Text, s: string): seq<string> {
    if s == [] then []
    else
      var c := s[|s| - 1];
      var words := Words(t, s[..|s| - 1]);
      if !t.isWord(c) then words
      else if |s| > 1 && t.isWord(s[|s| - 2]) && words != [] then words[|words| - 1 := words[|words| - 1] + [c]]
      else words + [[c]]
  }

  function Join(words: seq<string>): string {
    if words == [] then []
    else if |words| == 1 then words[0]
    else Join(words[..|words| - 1]) + [SEPARATOR] + words[|words| - 1]
  }

  lemma {:induction false} WordsNonEmpty(t: Text, s: string)
    ensures forall i :: 0 <= i < |Words(t, s)| ==> Words(t, s)[i] != []
    ensures s != [] && t.isWord(s[|s| - 1]) ==> Words(t, s) != []
  {
    if s != [] {
      WordsNonEmpty(t, s[..|s| - 1]);
    }
  }

  lemma JoinExtendsLast(words: seq<string>, c: char)
    requires words != []
    ensures Join(words[|words| - 1 := words[|words| - 1] + [c]]) == Join(words) + [c]
  {
    var longer := words[|words| - 1 := words[|words| - 1] + [c]];
    assert longer[..|words| - 1] == words[..|words| - 1];
  }

  lemma JoinAppends(words: seq<string>, w: string)
    ensures Join(words + [w]) == if words == [] then w else Join(words) + [SEPARATOR] + w
  {
    assert (words + [w])[..|words|] == words;
  }

  lemma JoinIsEmptyOnlyOnNothing(words: seq<string>)
    requires words != [] && forall i :: 0 <= i < |words| ==> words[i] != []
    ensures Join(words) != []
  {}

  /** The character loop joins the word runs with single separators. */
  lemma {:induction false} BuildJoinsWords(t: Text, s: string)
    ensures Build(t, s).0 == Join(Words(t, s))
    ensures Build(t, s).1 <==> s != [] && !t.isWord(s[|s| - 1])
  {
    if s != [] {
      var front := s[..|s| - 1];
      BuildJoinsWords(t, front);
      WordsNonEmpty(t, front);
      var words := Words(t, front);
      if t.isWord(s[|s| - 1]) {
        if words != [] {
          JoinIsEmptyOnlyOnNothing(words);
        }
        if |s| > 1 && t.isWord(s[|s| - 2]) && words != [] {
          JoinExtendsLast(words, s[|s| - 1]);
        } else {
          JoinAppends(words, [s[|s| - 1]]);
        }
      }
    }
  }

  /** A key joins the words of the lower-cased text, with no separator at an end or doubled. */
  lemma KeyJoinsWords(t: Text, value: string)
    requires !t.isWord(SEPARATOR)
    ensures Key(t, value) == Join(Words(t, Lower(t, Trim(t, value)))) && Joined(t, Key(t, value))
  {
    var s := Lower(t, Trim(t, value));
    BuildIsJoined(t, s);
    JoinedNeedsNoTrim(t, Build(t, s).0);
    BuildJoinsWords(t, s);
  }

  lemma {:induction false} BuildKeepsJoined(t: Text, s: string)
    requires !t.isWord(SEPARATOR) && WordsOnly(t, s)
    requires s != [] ==> s[0] != SEPARATOR
    requires forall i :: 0 <= i < |s| - 1 ==> !(s[i] == SEPARATOR && s[i + 1] == SEPARATOR)
    ensures var (key, pending) := Build(t, s);
      if s != [] && s[|s| - 1] == SEPARATOR then key == s[..|s| - 1] && pending else key == s && !pending
  {
    if s != [] {
      BuildKeepsJoined(t, s[..|s| - 1]);
    }
  }

  lemma {:induction false} BuildKeepsCharacters(t: Text, s: string, c: char)
    ensures c in Build(t, s).0 ==> c in s || c == SEPARATOR
  {
    if s != [] {
      BuildKeepsCharacters(t, s[..|s| - 1], c);
    }
  }

  /** A key is neither trimmed nor lower-cased any further. */
  lemma KeyIsNormal(t: Text, value: string)
    requires Sane(t)
    ensures var key := Key(t, value); Lower(t, Trim(t, key)) == key && Joined(t, key)
  {
    var s := Lower(t, Trim(t, value));
    var key := Build(t, s).0;
    KeyJoinsWords(t, value);
    BuildIsJoined(t, s);
    JoinedNeedsNoTrim(t, key);
    assert Trim(t, key) == key;
    forall i | 0 <= i < |key| ensures t.lower(key[i]) == key[i] {
      BuildKeepsCharacters(t, s, key[i]);
    }
  }

  /** The key of a key is that key. */
  lemma KeyIsIdempotent(t: Text, value: string)
    requires Sane(t)
    ensures Key(t, Key(t, value)) == Key(t, value)
  {
    var key := Key(t, value);
    KeyIsNormal(t, value);
    BuildKeepsJoined(t, key);
    JoinedNeedsNoTrim(t, key);
  }

  // -------------------------------------------------------------------- the resolver

  datatype State = State(byKey: map<string, string>, ambiguous: set<string>)

  const EMPTY := State(map[], {})

  function Add(t: Text, s: State, alias: string, canonical0: string): State {
    var canonical, key := Trim(t, canonical0), Key(t, alias);
    if key == "" || canonical == "" then s
    else if key in s.byKey && s.byKey[key] != canonical then State(s.byKey - {key}, s.ambiguous + {key})
    else if key in s.ambiguous then s
    else s.(byKey := s.byKey[key := canonical])
  }

  function Rename(byKey: map<string, string>, from: string, to: string): map<string, string> {
    map k | k in byKey :: if byKey[k] == from then to else byKey[k]
  }

  function Redirect(t: Text, s: State, alias0: string, canonical0: string): State {
    var alias, canonical := Trim(t, alias0), Trim(t, canonical0);
    if alias == "" || canonical == "" then s
    else
      var key := Key(t, alias);
      Add(t, State(Rename(s.byKey, alias, canonical)[key := canonical], s.ambiguous - {key}), canonical, canonical)
  }

  /** The canonical ID a reference stands for, and whether it is another name for it. */
  function Resolve(t: Text, s: State, value0: string): Option<(string, bool)> {
    var value := Trim(t, value0);
    if value == "" || Key(t, value) in s.ambiguous || Key(t, value) !in s.byKey then None
    else Some((s.byKey[Key(t, value)], s.byKey[Key(t, value)] != value))
  }

  class Resolver {
    var byKey: map<string, string>
    var ambiguous: set<string>

    ghost function Abstract(): State
      reads this
    {
      State(byKey, ambiguous)
    }

    constructor (t: Text, ids: seq<string>)
      ensures Abstract() == AddAll(t, EMPTY, SelfPairs(ids))
    {
      byKey, ambiguous := map[], {};
      new;
      for i := 0 to |ids|
        invariant Abstract() == AddAll(t, EMPTY, SelfPairs(ids[..i]))
      {
        assert ids[..i + 1] == ids[..i] + [ids[i]];
        assert SelfPairs(ids[..i + 1]) == SelfPairs(ids[..i]) + [(ids[i], ids[i])];
        AddPair(t, ids[i], ids[i]);
      }
      assert ids[..|ids|] == ids;
    }

    method AddPair(t: Text, alias: string, canonical0: string)
      modifies this
      ensures Abstract() == Add(t, old(Abstract()), alias, canonical0)
    {
      var canonical := Trim(t, canonical0);
      var key := CanonicalReferenceKey(t, alias);
      if key == "" || canonical == "" {
        return;
      }
      if key in byKey && byKey[key] != canonical {
        byKey := byKey - {key};
        ambiguous := ambiguous + {key};
        return;
      }
      if key in ambiguous {
        return;
      }
      byKey := byKey[key := canonical];
    }

    method RedirectPair(t: Text, alias0: string, canonical0: string)
      modifies this
      ensures Abstract() == Redirect(t, old(Abstract()), alias0, canonical0)
    {
      var alias, canonical := Trim(t, alias0), Trim(t, canonical0);
      if alias == "" || canonical == "" {
        return;
      }
      var rest := byKey.Keys;
      while rest != {}
        invariant rest <= byKey.Keys == old(byKey).Keys && ambiguous == old(ambiguous)
        invariant forall k :: k in rest ==> byKey[k] == old(byKey)[k]
        invariant forall k :: k in byKey && k !in rest ==> byKey[k] == Rename(old(byKey), alias, canonical)[k]
        decreases rest
      {
        var key :| key in rest;
        rest := rest - {key};
        if byKey[key] == alias {
          byKey := byKey[key := canonical];
        }
      }
      assert byKey == Rename(old(byKey), alias, canonical);
      var key := CanonicalReferenceKey(t, alias);
      ambiguous := ambiguous - {key};
      byKey := byKey[key := canonical];
      AddPair(t, canonical, canonical);
    }

    method ResolveReference(t: Text, value0: string) returns (resolved: Option<(string, bool)>)
      ensures resolved == Resolve(t, Abstract(), value0)
    {
      var value := Trim(t, value0);
      if value == "" {
        return None;
      }
      var key := CanonicalReferenceKey(t, value);
      if key in ambiguous || key !in byKey {
        return None;
      }
      resolved := Some((byKey[key], byKey[key] != value));
    }
  }

  function SelfPairs(ids: seq<string>): seq<(string, string)> {
    seq(|ids|, i requires 0 <= i < |ids| => (ids[i], ids[i]))
  }

  function AddAll(t: Text, s: State, pairs: seq<(string, string)>): State {
    if pairs == [] then s
    else Add(t, AddAll(t, s, pairs[..|pairs| - 1]), pairs[|pairs| - 1].0, pairs[|pairs| - 1].1)
  }

  // ----------------------------------------------------------------- what it guarantees

  ghost predicate Disjoint(s: State) {
    s.byKey.Keys !! s.ambiguous
  }

  datatype Operation = AddOf(alias: string, canonical: string) | RedirectOf(alias: string, canonical: string)

  /** The resolver after any sequence of adds and redirects. */
  function Perform(t: Text, s: State, operations: seq<Operation>): State {
    if operations == [] then s
    else
      var before, last := Perform(t, s, operations[..|operations| - 1]), operations[|operations| - 1];
      match last
      case AddOf(alias, canonical) => Add(t, before, alias, canonical)
      case RedirectOf(alias, canonical) => Redirect(t, before, alias, canonical)
  }

  /** After any sequence of adds and redirects no key is both resolved and ambiguous. */
  lemma {:induction false} OperationsKeepDisjoint(t: Text, s: State, operations: seq<Operation>)
    requires Disjoint(s)
    ensures Disjoint(Perform(t, s, operations))
  {
    if operations != [] {
      OperationsKeepDisjoint(t, s, operations[..|operations| - 1]);
      OperationKeepsDisjoint(t, Perform(t, s, operations[..|operations| - 1]), operations[|operations| - 1]);
    }
  }

  lemma OperationKeepsDisjoint(t: Text, s: State, operation: Operation)
    requires Disjoint(s)
    ensures Disjoint(Add(t, s, operation.alias, operation.canonical)) && Disjoint(Redirect(t, s, operation.alias, operation.canonical))
  {}

  /** The canonical IDs added for a key. */
  ghost function Added(t: Text, pairs: seq<(string, string)>, key: string): set<string> {
    set p | p in pairs && Key(t, p.0) == key && Trim(t, p.1) != "" :: Trim(t, p.1)
  }

  lemma AddedGrows(t: Text, pairs: seq<(string, string)>, p: (string, string), key: string)
    ensures Added(t, pairs + [p], key) ==
      Added(t, pairs, key) + if Key(t, p.0) == key && Trim(t, p.1) != "" then {Trim(t, p.1)} else {}
  {}

  /** A key resolves to the only ID ever added for it, and is ambiguous once there were two. */
  lemma {:induction false} AddsDecide(t: Text, pairs: seq<(string, string)>, key: string)
    ensures var s := AddAll(t, EMPTY, pairs);
      && (key in s.byKey <==> key != "" && exists c :: Added(t, pairs, key) == {c})
      && (key in s.byKey ==> Added(t, pairs, key) == {s.byKey[key]})
      && (key in s.ambiguous <==> key != "" && exists c, d :: c in Added(t, pairs, key) && d in Added(t, pairs, key) && c != d)
  {
    if pairs != [] {
      var front, last := pairs[..|pairs| - 1], pairs[|pairs| - 1];
      AddsDecide(t, front, key);
      assert pairs == front + [last];
      AddedGrows(t, front, last, key);
      AddStep(t, AddAll(t, EMPTY, front), last, key, Added(t, front, key), Added(t, pairs, key));
    }
  }

  /** `s` says of `key` what the set of IDs added for it says. */
  ghost predicate Decides(s: State, key: string, added: set<string>) {
    && (key in s.byKey <==> key != "" && exists c :: added == {c})
    && (key in s.byKey ==> added == {s.byKey[key]})
    && (key in s.ambiguous <==> key != "" && exists c, d :: c in added && d in added && c != d)
  }

  lemma NoneOneOrMore(s: set<string>)
    ensures s == {} || (exists c :: s == {c}) || exists c, d :: c in s && d in s && c != d
  {
    if c :| c in s {
      if d :| d in s && d != c {
        assert c in s && d in s && c != d;
      } else {
        assert s == {c};
      }
    }
  }

  lemma AddStep(t: Text, s: State, p: (string, string), key: string, before: set<string>, after: set<string>)
    requires Decides(s, key, before)
    requires after == before + if Key(t, p.0) == key && Trim(t, p.1) != "" then {Trim(t, p.1)} else {}
    ensures Decides(Add(t, s, p.0, p.1), key, after)
  {
    var canonical := Trim(t, p.1);
    NoneOneOrMore(before);
    if Key(t, p.0) == key != "" && canonical != "" {
      if key in s.byKey {
        assert before == {s.byKey[key]};
        assert canonical in after && s.byKey[key] in after;
      } else if key !in s.ambiguous {
        assert after == {canonical};
      } else {
        var c, d :| c in before && d in before && c != d;
        assert c in after && d in after;
      }
    }
  }

  /** Without redirects the resolver does not depend on the order, or repetition, of what was added. */
  lemma AddsIgnoreOrder(t: Text, pairs: seq<(string, string)>, reordered: seq<(string, string)>)
    requires forall p :: p in pairs <==> p in reordered
    ensures AddAll(t, EMPTY, pairs) == AddAll(t, EMPTY, reordered)
  {
    var a, b := AddAll(t, EMPTY, pairs), AddAll(t, EMPTY, reordered);
    forall key
      ensures (key in a.byKey <==> key in b.byKey) && (key in a.byKey ==> a.byKey[key] == b.byKey[key])
      ensures key in a.ambiguous <==> key in b.ambiguous
    {
      AddsDecide(t, pairs, key);
      AddsDecide(t, reordered, key);
      assert Added(t, pairs, key) == Added(t, reordered, key);
      if key in a.byKey && key in b.byKey {
        assert a.byKey[key] in {b.byKey[key]};
      }
    }
  }

  /** After a redirect the old name stands for the new one, and no key stands for the old name any more. */
  lemma RedirectTakesOver(t: Text, s: State, alias: string, canonical: string)
    requires Disjoint(s) && Trim(t, alias) == alias != "" && Trim(t, canonical) == canonical != "" && alias != canonical
    ensures var r := Redirect(t, s, alias, canonical);
      && Resolve(t, r, alias) == Some((canonical, true))
      && forall k :: k in r.byKey ==> r.byKey[k] != alias
  {}

  /** The new name itself resolves exactly when its key was free, or stood for it or for the old name. */
  lemma CanonicalResolvesExactlyWhen(t: Text, s: State, alias: string, canonical: string)
    requires Disjoint(s) && Trim(t, alias) == alias != "" && Trim(t, canonical) == canonical != ""
    requires Key(t, canonical) != "" && Key(t, canonical) != Key(t, alias)
    ensures var k := Key(t, canonical);
      Resolve(t, Redirect(t, s, alias, canonical), canonical) == Some((canonical, false)) <==>
        k !in s.ambiguous && (k in s.byKey ==> s.byKey[k] == canonical || s.byKey[k] == alias)
  {}
}
