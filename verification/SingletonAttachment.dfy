/**
  Attaching single unclassified items to existing topics at meeting end
  (internal/application/ai_final_singleton_attachment.go): the tokenizer, the terms
  two texts share, the subject match, the candidate score, and the choice with a margin.
  Texts arrive lower-cased; a sorted list of terms is the map or set of its terms.
 */
module SingletonAttachment {
  import opened Basics
  import opened Options
  import opened Sorting

  const SUBJECT_FLOOR := 0.55
  const SUPPORT_FLOOR := 0.60
  const SCORE_FLOOR := 0.58
  const SCORE_MARGIN := 0.08
  const MIN_TERM_RUNES := 2
  const EVIDENCE_WINDOW := 12

  datatype RuneClass = NoClass | Han | Katakana | Latin

  datatype Token = Token(compound: string, term: string, hanOnly: bool)

  type Classes = char -> RuneClass

  // -------------------------------------------------------------------- the tokenizer

  /** s[a..b] is a maximal stretch of characters that belong to some class. */
  ghost predicate CompoundAt(s: string, classOf: Classes, a: int, b: int) {
    && 0 <= a < b <= |s|
    && (forall i :: a <= i < b ==> classOf(s[i]) != NoClass)
    && (a > 0 ==> classOf(s[a - 1]) == NoClass)
    && (b < |s| ==> classOf(s[b]) == NoClass)
  }

  /** s[a..b] is a maximal stretch of one class. */
  ghost predicate TermAt(s: string, classOf: Classes, a: int, b: int) {
    && 0 <= a < b <= |s|
    && classOf(s[a]) != NoClass
    && (forall i :: a <= i < b ==> classOf(s[i]) == classOf(s[a]))
    && (a > 0 ==> classOf(s[a - 1]) != classOf(s[a]))
    && (b < |s| ==> classOf(s[b]) != classOf(s[a]))
  }

  datatype Place = Place(start: int, end: int, from: int, to: int)

  /** A term of at least two characters inside its compound. */
  ghost predicate PlaceOk(s: string, classOf: Classes, p: Place) {
    && CompoundAt(s, classOf, p.start, p.end) && TermAt(s, classOf, p.from, p.to)
    && p.start <= p.from < p.to <= p.end && p.to - p.from >= MIN_TERM_RUNES
  }

  ghost predicate TokenAt(s: string, classOf: Classes, p: Place, t: Token) {
    PlaceOk(s, classOf, p) && t == Token(s[p.start..p.end], s[p.from..p.to], classOf(s[p.from]) == Han)
  }

  /** Every long enough term that ends at `n` or before has its place. */
  ghost predicate Complete(s: string, classOf: Classes, n: int, places: seq<Place>) {
    forall a, b :: TermAt(s, classOf, a, b) && b <= n && b - a >= MIN_TERM_RUNES ==> Placed(places, a, b)
  }

  ghost predicate Placed(places: seq<Place>, a: int, b: int) {
    exists i :: 0 <= i < |places| && places[i].from == a && places[i].to == b
  }

  /** The tokens up to position `n`: all long enough terms that end there or before, in order. */
  ghost predicate Tokenized(s: string, classOf: Classes, n: int, places: seq<Place>, tokens: seq<Token>) {
    && |places| == |tokens|
    && (forall i :: 0 <= i < |tokens| ==> TokenAt(s, classOf, places[i], tokens[i]) && places[i].to <= n)
    && (forall i, j :: 0 <= i < j < |places| ==> places[i].to <= places[j].from)
    && Complete(s, classOf, n, places)
  }

  method RunEnd(s: string, classOf: Classes, start: nat) returns (end: nat)
    requires start < |s| && classOf(s[start]) != NoClass && (start > 0 ==> classOf(s[start - 1]) == NoClass)
    ensures CompoundAt(s, classOf, start, end)
  {
    end := start;
    while end < |s| && classOf(s[end]) != NoClass
      invariant start <= end <= |s|
      invariant forall i :: start <= i < end ==> classOf(s[i]) != NoClass
    {
      end := end + 1;
    }
  }

  method TermEnd(s: string, classOf: Classes, at: nat, end: nat) returns (next: nat)
    requires at < end <= |s| && classOf(s[at]) != NoClass && (at > 0 ==> classOf(s[at - 1]) != classOf(s[at]))
    requires end < |s| ==> classOf(s[end]) == NoClass
    ensures at < next <= end && TermAt(s, classOf, at, next)
  {
    next := at + 1;
    while next < end && classOf(s[next]) == classOf(s[at])
      invariant at < next <= end
      invariant forall i :: at <= i < next ==> classOf(s[i]) == classOf(s[at])
    {
      next := next + 1;
    }
  }

  /** Two terms either coincide or do not overlap. */
  lemma TermsDoNotOverlap(s: string, classOf: Classes, a: int, b: int, c: int, d: int)
    requires TermAt(s, classOf, a, b) && TermAt(s, classOf, c, d) && c < b && a < d
    ensures a == c && b == d
  {}

  lemma TermCompletes(s: string, classOf: Classes, at: int, next: int, places: seq<Place>, more: seq<Place>)
    requires Complete(s, classOf, at, places) && TermAt(s, classOf, at, next)
    requires places <= more && (next - at >= MIN_TERM_RUNES ==> Placed(more, at, next))
    ensures Complete(s, classOf, next, more)
  {
    forall a, b | TermAt(s, classOf, a, b) && b <= next && b - a >= MIN_TERM_RUNES ensures Placed(more, a, b) {
      if b <= at {
        var i :| 0 <= i < |places| && places[i].from == a && places[i].to == b;
        assert more[i] == places[i];
      } else {
        TermsDoNotOverlap(s, classOf, a, b, at, next);
      }
    }
  }

  /** Appending a term that is long enough, or skipping one that is not. */
  lemma NextTerm(s: string, classOf: Classes, at: int, next: int, places: seq<Place>, tokens: seq<Token>, p: Place, t: Token)
    requires Tokenized(s, classOf, at, places, tokens) && TermAt(s, classOf, at, next)
    requires next - at >= MIN_TERM_RUNES ==> TokenAt(s, classOf, p, t) && p.from == at && p.to == next
    ensures next - at >= MIN_TERM_RUNES ==> Tokenized(s, classOf, next, places + [p], tokens + [t])
    ensures next - at < MIN_TERM_RUNES ==> Tokenized(s, classOf, next, places, tokens)
  {
    if next - at >= MIN_TERM_RUNES {
      assert (places + [p])[|places|] == p;
      TermCompletes(s, classOf, at, next, places, places + [p]);
    } else {
      TermCompletes(s, classOf, at, next, places, places);
    }
  }

  method CompoundTokens(s: string, classOf: Classes, start: nat, end: nat, tokens0: seq<Token>, ghost places0: seq<Place>)
    returns (tokens: seq<Token>, ghost places: seq<Place>)
    requires CompoundAt(s, classOf, start, end) && Tokenized(s, classOf, start, places0, tokens0)
    ensures Tokenized(s, classOf, end, places, tokens)
  {
    tokens, places := tokens0, places0;
    var at: nat := start;
    while at < end
      invariant start <= at <= end && Tokenized(s, classOf, at, places, tokens)
      invariant at < end && at > 0 ==> classOf(s[at - 1]) != classOf(s[at])
    {
      var next := TermEnd(s, classOf, at, end);
      var token := Token(s[start..end], s[at..next], classOf(s[at]) == Han);
      ghost var place := Place(start, end, at, next);
      NextTerm(s, classOf, at, next, places, tokens, place, token);
      if next - at >= MIN_TERM_RUNES {
        tokens, places := tokens + [token], places + [place];
      }
      at := next;
    }
  }

  lemma GapHasNoTerm(s: string, classOf: Classes, n: int, places: seq<Place>, tokens: seq<Token>)
    requires Tokenized(s, classOf, n, places, tokens) && 0 <= n < |s| && classOf(s[n]) == NoClass
    ensures Tokenized(s, classOf, n + 1, places, tokens)
  {
    forall a, b | TermAt(s, classOf, a, b) && b <= n + 1 ensures b <= n {}
  }

  /** The terms of a text: every maximal stretch of one class with two characters or more, once, in order. */
  method Tokens(s: string, classOf: Classes) returns (tokens: seq<Token>)
    ensures exists places :: Tokenized(s, classOf, |s|, places, tokens)
  {
    tokens := [];
    ghost var places: seq<Place> := [];
    var start: nat := 0;
    while start < |s|
      invariant start <= |s| && Tokenized(s, classOf, start, places, tokens)
      invariant 0 < start < |s| && classOf(s[start]) != NoClass ==> classOf(s[start - 1]) == NoClass
    {
      if classOf(s[start]) == NoClass {
        GapHasNoTerm(s, classOf, start, places, tokens);
        start := start + 1;
        continue;
      }
      var end := RunEnd(s, classOf, start);
      tokens, places := CompoundTokens(s, classOf, start, end, tokens, places);
      start := end;
    }
  }

  // ------------------------------------------------------------ longest common substring

  function CommonAt(left: string, right: string, i: nat, j: nat): (n: nat)
    requires i <= |left| && j <= |right|
    ensures i + n <= |left| && j + n <= |right|
    decreases |left| - i
  {
    if i < |left| && j < |right| && left[i] == right[j] then CommonAt(left, right, i + 1, j + 1) + 1 else 0
  }

  lemma {:induction false} CommonMatches(left: string, right: string, i: nat, j: nat)
    requires i <= |left| && j <= |right|
    ensures var n := CommonAt(left, right, i, j); left[i..i + n] == right[j..j + n]
    decreases |left| - i
  {
    var n := CommonAt(left, right, i, j);
    if n > 0 {
      CommonMatches(left, right, i + 1, j + 1);
      assert left[i..i + n] == [left[i]] + left[i + 1..i + n];
      assert right[j..j + n] == [right[j]] + right[j + 1..j + n];
    }
  }

  lemma {:induction false} CommonIsLongest(left: string, right: string, i: nat, j: nat, n: nat)
    requires i + n <= |left| && j + n <= |right| && left[i..i + n] == right[j..j + n]
    ensures n <= CommonAt(left, right, i, j)
    decreases n
  {
    if n > 0 {
      assert left[i] == left[i..i + n][0] == right[j..j + n][0] == right[j];
      assert left[i + 1..i + n] == left[i..i + n][1..] == right[j..j + n][1..] == right[j + 1..j + n];
      CommonIsLongest(left, right, i + 1, j + 1, n - 1);
    }
  }

  /** The first longest match among the pairs before (i, j), as its start in `left` and its length. */
  function BestBefore(left: string, right: string, i: nat, j: nat): (nat, nat)
    requires (i < |left| && j <= |right|) || (i == |left| && j == 0)
    decreases i, j
  {
    if j > 0 then
      var best := BestBefore(left, right, i, j - 1);
      var n := CommonAt(left, right, i, j - 1);
      if n > best.1 then (i, n) else best
    else if i > 0 then BestBefore(left, right, i - 1, |right|)
    else (0, 0)
  }

  function LongestCommon(left: string, right: string): string {
    var best := BestBefore(left, right, |left|, 0);
    if best.0 + best.1 <= |left| then left[best.0..best.0 + best.1] else ""
  }

  method CommonLength(left: string, right: string, i: nat, j: nat) returns (length: nat)
    requires i <= |left| && j <= |right|
    ensures length == CommonAt(left, right, i, j)
  {
    length := 0;
    while i + length < |left| && j + length < |right| && left[i + length] == right[j + length]
      invariant i + length <= |left| && j + length <= |right|
      invariant CommonAt(left, right, i, j) == length + CommonAt(left, right, i + length, j + length)
    {
      length := length + 1;
    }
  }

  method LongestCommonSubstring(left: string, right: string) returns (common: string)
    ensures common == LongestCommon(left, right)
  {
    var best: nat, bestLength: nat := 0, 0;
    for i := 0 to |left|
      invariant (best, bestLength) == BestBefore(left, right, i, 0) && best + bestLength <= |left|
    {
      for j := 0 to |right|
        invariant (best, bestLength) == BestBefore(left, right, i, j) && best + bestLength <= |left|
      {
        var length := CommonLength(left, right, i, j);
        if length > bestLength {
          best, bestLength := i, length;
        }
      }
    }
    if bestLength == 0 {
      return "";
    }
    common := left[best..best + bestLength];
  }

  predicate OccursAt(part: string, whole: string, k: nat) {
    k + |part| <= |whole| && whole[k..k + |part|] == part
  }

  ghost predicate Within(part: string, whole: string) {
    exists k :: OccursAt(part, whole, k)
  }

  /** A choice of start and length whose piece of `left` also occurs in `right`. */
  ghost predicate Common(left: string, right: string, start: nat, n: nat) {
    start + n <= |left| && (n == 0 || Within(left[start..start + n], right))
  }

  lemma PairIsCommon(left: string, right: string, i: nat, j: nat)
    requires i <= |left| && j <= |right|
    ensures Common(left, right, i, CommonAt(left, right, i, j))
  {
    var n := CommonAt(left, right, i, j);
    CommonMatches(left, right, i, j);
    assert OccursAt(left[i..i + n], right, j);
  }

  lemma {:induction false} BestIsCommon(left: string, right: string, i: nat, j: nat)
    requires (i < |left| && j <= |right|) || (i == |left| && j == 0)
    ensures var (start, n) := BestBefore(left, right, i, j); Common(left, right, start, n)
    decreases i, j
  {
    if j > 0 {
      BestIsCommon(left, right, i, j - 1);
      PairIsCommon(left, right, i, j - 1);
    } else if i > 0 {
      BestIsCommon(left, right, i - 1, |right|);
    }
  }

  lemma {:induction false} BestIsGreatest(left: string, right: string, i: nat, j: nat, a: nat, b: nat)
    requires (i < |left| && j <= |right|) || (i == |left| && j == 0)
    requires a < |left| && b < |right| && (a < i || (a == i && b < j))
    ensures CommonAt(left, right, a, b) <= BestBefore(left, right, i, j).1
    decreases i, j
  {
    if j > 0 {
      if (a, b) != (i, j - 1) {
        BestIsGreatest(left, right, i, j - 1, a, b);
      }
    } else if i > 0 {
      BestIsGreatest(left, right, i - 1, |right|, a, b);
    }
  }

  /** The result occurs in both texts, and nothing longer does. */
  lemma LongestCommonIsLongest(left: string, right: string, part: string)
    ensures Within(LongestCommon(left, right), left) && Within(LongestCommon(left, right), right)
    ensures Within(part, left) && Within(part, right) ==> |part| <= |LongestCommon(left, right)|
  {
    var common := LongestCommon(left, right);
    var best := BestBefore(left, right, |left|, 0);
    BestIsCommon(left, right, |left|, 0);
    assert OccursAt(common, left, best.0);
    if |common| == 0 {
      assert OccursAt(common, right, 0);
    }
    if Within(part, left) && Within(part, right) && |part| > 0 {
      var i :| OccursAt(part, left, i);
      var j :| OccursAt(part, right, j);
      CommonIsLongest(left, right, i, j, |part|);
      BestIsGreatest(left, right, |left|, 0, i, j);
    }
  }

  // ------------------------------------------------------------------- shared terms

  /** Terms that mark procedure only, and terms too general to stand alone. */
  datatype Vocabulary = Vocabulary(generic: set<string>, weak: set<string>)

  datatype Shared = Shared(weak: bool, conflicting: bool)

  type Terms = map<string, Shared>

  predicate HasSuffix(s: string, suffix: string) {
    |suffix| <= |s| && s[|s| - |suffix|..] == suffix
  }

  predicate Aligned(term: string, source: string) {
    term == source || HasPrefix(source, term) || HasSuffix(source, term)
  }

  function HeadModifier(compound: string, term: string): string {
    if compound == term || !HasSuffix(compound, term) then "" else compound[..|compound| - |term|]
  }

  /** The term two tokens share, or "". */
  function PairTerm(l: Token, r: Token, v: Vocabulary): string {
    var term := LongestCommon(l.term, r.term);
    if |term| < MIN_TERM_RUNES then ""
    else if (!l.hanOnly || !r.hanOnly) && term != l.term && term != r.term then ""
    else if (!l.hanOnly || !r.hanOnly) && !(Aligned(term, l.term) && Aligned(term, r.term)) then ""
    else if term in v.generic then ""
    else term
  }

  predicate Compatible(l: Token, r: Token, term: string) {
    var a, b := HeadModifier(l.compound, term), HeadModifier(r.compound, term);
    a == "" || b == "" || a == b
  }

  predicate Shares(left: seq<Token>, right: seq<Token>, v: Vocabulary, a: int, b: int, term: string) {
    0 <= a < |left| && 0 <= b < |right| && PairTerm(left[a], right[b], v) == term
  }

  /** The pair (a, b) comes before (i, j) in the order of the two nested loops. */
  predicate Earlier(a: int, b: int, i: int, j: int) {
    a < i || (a == i && b < j)
  }

  function Note(terms: Terms, l: Token, r: Token, v: Vocabulary): Terms {
    var term := PairTerm(l, r, v);
    if term == "" then terms
    else
      var conflicting := (term !in terms || terms[term].conflicting) && !Compatible(l, r, term);
      terms[term := Shared(term in v.weak, conflicting)]
  }

  /** The terms noted from the pairs before (i, j). */
  function TermsUpTo(left: seq<Token>, right: seq<Token>, v: Vocabulary, i: nat, j: nat): Terms
    requires (i < |left| && j <= |right|) || (i == |left| && j == 0)
    decreases i, j
  {
    if j > 0 then Note(TermsUpTo(left, right, v, i, j - 1), left[i], right[j - 1], v)
    else if i > 0 then TermsUpTo(left, right, v, i - 1, |right|)
    else map[]
  }

  function SharedTerms(left: seq<Token>, right: seq<Token>, v: Vocabulary): Terms {
    TermsUpTo(left, right, v, |left|, 0)
  }

  method CollectSharedTerms(left: seq<Token>, right: seq<Token>, v: Vocabulary) returns (terms: Terms)
    ensures terms == SharedTerms(left, right, v)
  {
    terms := map[];
    for i := 0 to |left|
      invariant terms == TermsUpTo(left, right, v, i, 0)
    {
      for j := 0 to |right|
        invariant terms == TermsUpTo(left, right, v, i, j)
      {
        terms := Note(terms, left[i], right[j], v);
      }
    }
  }

  ghost predicate SharedBefore(left: seq<Token>, right: seq<Token>, v: Vocabulary, i: int, j: int, t: string) {
    exists a, b :: Shares(left, right, v, a, b, t) && Earlier(a, b, i, j)
  }

  ghost predicate CompatibleBefore(left: seq<Token>, right: seq<Token>, v: Vocabulary, i: int, j: int, t: string) {
    exists a, b :: Shares(left, right, v, a, b, t) && Earlier(a, b, i, j) && Compatible(left[a], right[b], t)
  }

  lemma NextShared(left: seq<Token>, right: seq<Token>, v: Vocabulary, i: nat, j: nat, t: string)
    requires i < |left| && j < |right|
    ensures SharedBefore(left, right, v, i, j + 1, t) <==>
      SharedBefore(left, right, v, i, j, t) || Shares(left, right, v, i, j, t)
  {
    if a, b :| Shares(left, right, v, a, b, t) && Earlier(a, b, i, j) {
      assert Earlier(a, b, i, j + 1);
    }
    if Shares(left, right, v, i, j, t) {
      assert Earlier(i, j, i, j + 1);
    }
    if a, b :| Shares(left, right, v, a, b, t) && Earlier(a, b, i, j + 1) {
      assert Earlier(a, b, i, j) || (a == i && b == j);
    }
  }

  lemma NextCompatible(left: seq<Token>, right: seq<Token>, v: Vocabulary, i: nat, j: nat, t: string)
    requires i < |left| && j < |right|
    ensures CompatibleBefore(left, right, v, i, j + 1, t) <==>
      CompatibleBefore(left, right, v, i, j, t) || (Shares(left, right, v, i, j, t) && Compatible(left[i], right[j], t))
  {
    if a, b :| Shares(left, right, v, a, b, t) && Earlier(a, b, i, j) && Compatible(left[a], right[b], t) {
      assert Earlier(a, b, i, j + 1);
    }
    if Shares(left, right, v, i, j, t) {
      assert Earlier(i, j, i, j + 1);
    }
    if a, b :| Shares(left, right, v, a, b, t) && Earlier(a, b, i, j + 1) && Compatible(left[a], right[b], t) {
      assert Earlier(a, b, i, j) || (a == i && b == j);
    }
  }

  lemma NextRow(left: seq<Token>, right: seq<Token>, v: Vocabulary, i: nat, t: string)
    requires i < |left|
    ensures SharedBefore(left, right, v, i + 1, 0, t) <==> SharedBefore(left, right, v, i, |right|, t)
    ensures CompatibleBefore(left, right, v, i + 1, 0, t) <==> CompatibleBefore(left, right, v, i, |right|, t)
  {
    forall a, b | Shares(left, right, v, a, b, t) ensures Earlier(a, b, i + 1, 0) <==> Earlier(a, b, i, |right|) {}
  }

  /** What the terms say of `t` is what the pairs before (i, j) say. */
  ghost predicate NotedRight(left: seq<Token>, right: seq<Token>, v: Vocabulary, i: int, j: int, terms: Terms, t: string) {
    && (t in terms <==> t != "" && SharedBefore(left, right, v, i, j, t))
    && (t in terms ==> terms[t].weak == (t in v.weak))
    && (t in terms ==> (terms[t].conflicting <==> !CompatibleBefore(left, right, v, i, j, t)))
  }

  lemma NoteOnePair(left: seq<Token>, right: seq<Token>, v: Vocabulary, i: nat, j: nat, terms: Terms, t: string)
    requires i < |left| && j < |right| && NotedRight(left, right, v, i, j, terms, t)
    ensures NotedRight(left, right, v, i, j + 1, Note(terms, left[i], right[j], v), t)
  {
    NextShared(left, right, v, i, j, t);
    NextCompatible(left, right, v, i, j, t);
    if t !in terms && t != "" {
      assert !CompatibleBefore(left, right, v, i, j, t);
    }
  }

  lemma NoteOneRow(left: seq<Token>, right: seq<Token>, v: Vocabulary, i: nat, terms: Terms, t: string)
    requires i < |left| && NotedRight(left, right, v, i, |right|, terms, t)
    ensures NotedRight(left, right, v, i + 1, 0, terms, t)
  {
    NextRow(left, right, v, i, t);
  }

  lemma {:induction false} NotedTerm(left: seq<Token>, right: seq<Token>, v: Vocabulary, i: nat, j: nat, t: string)
    requires (i < |left| && j <= |right|) || (i == |left| && j == 0)
    ensures NotedRight(left, right, v, i, j, TermsUpTo(left, right, v, i, j), t)
    decreases i, j
  {
    if j > 0 {
      NotedTerm(left, right, v, i, j - 1, t);
      NoteOnePair(left, right, v, i, j - 1, TermsUpTo(left, right, v, i, j - 1), t);
    } else if i > 0 {
      NotedTerm(left, right, v, i - 1, |right|, t);
      NoteOneRow(left, right, v, i - 1, TermsUpTo(left, right, v, i - 1, |right|), t);
    }
  }

  /**
    A term is shared exactly when some pair of tokens shares it, and conflicts
    exactly when every such pair puts it under different modifiers.
   */
  lemma SharedTermExactly(left: seq<Token>, right: seq<Token>, v: Vocabulary, t: string)
    ensures var terms := SharedTerms(left, right, v);
      && (t in terms <==> t != "" && exists a, b :: Shares(left, right, v, a, b, t))
      && (t in terms ==> terms[t].weak == (t in v.weak))
      && (t in terms ==> (terms[t].conflicting <==>
            forall a, b :: Shares(left, right, v, a, b, t) ==> !Compatible(left[a], right[b], t)))
  {
    NotedTerm(left, right, v, |left|, 0, t);
    forall a, b | Shares(left, right, v, a, b, t) ensures Earlier(a, b, |left|, 0) {}
  }

  // ------------------------------------------------------------------ the subject match

  function MergeTerms(target: Terms, terms: Terms): Terms {
    map t | t in target.Keys + terms.Keys ::
      if t !in target then terms[t]
      else if t !in terms then target[t]
      else Shared(target[t].weak, target[t].conflicting && terms[t].conflicting)
  }

  datatype Subject = Subject(
    strength: real, penalty: real, conflicting: bool, fromLabel: bool, fromHint: bool, anchored: bool, terms: set<string>)

  const NO_SUBJECT := Subject(0.0, 0.0, false, false, false, false, {})

  predicate HasTermOf(terms: Terms, length: nat) {
    exists t :: t in terms && |t| >= length
  }

  predicate AllWeak(terms: Terms) {
    forall t :: t in terms ==> terms[t].weak
  }

  function RawStrength(terms: Terms, fromLabel: bool): real {
    var base := if HasTermOf(terms, 4) then 0.85 else if HasTermOf(terms, 3) then 0.70 else 0.45;
    var many := if |terms| >= 2 then base + 0.10 else base;
    var labelled := if fromLabel then many + 0.10 else many;
    if labelled > 1.0 then 1.0 else labelled
  }

  function MatchOf(merged: Terms, fromLabel: bool, fromHint: bool): Subject {
    var strength := RawStrength(merged, fromLabel);
    var penalty := if AllWeak(merged) then strength * 0.5 else 0.0;
    Subject(strength - penalty, penalty, exists t :: t in merged && merged[t].conflicting,
      fromLabel, fromHint, fromLabel || fromHint || |merged| >= 2, merged.Keys)
  }

  /** The match against the four kinds of tokens of a topic, given what each shares with the item. */
  function Match(heading: Terms, hint: Terms, context: Terms, descendant: Terms): Subject {
    var merged := Merge4(heading, hint, context, descendant);
    if merged == map[] then NO_SUBJECT else MatchOf(merged, heading != map[], hint != map[])
  }

  datatype Descendant = Descendant(id: string, kind: string, tokens: seq<Token>, evidence: seq<int>)

  datatype Topic = Topic(
    id: string, sourceCandidateId: string, aliases: set<string>,
    heading: seq<Token>, hint: seq<Token>, context: seq<Token>, descendants: seq<Descendant>)

  datatype Item = Item(
    id: string, kind: string, tokens: seq<Token>, evidence: seq<int>, candidateTopicId: string, related: set<string>)

  function DescendantTokens(descendants: seq<Descendant>): seq<Token> {
    if descendants == [] then []
    else DescendantTokens(descendants[..|descendants| - 1]) + descendants[|descendants| - 1].tokens
  }

  function Merge4(heading: Terms, hint: Terms, context: Terms, descendant: Terms): Terms {
    MergeTerms(MergeTerms(MergeTerms(MergeTerms(map[], heading), hint), context), descendant)
  }

  function SubjectOf(item: Item, topic: Topic, v: Vocabulary): Subject {
    Match(SharedTerms(item.tokens, topic.heading, v), SharedTerms(item.tokens, topic.hint, v),
      SharedTerms(item.tokens, topic.context, v), SharedTerms(item.tokens, DescendantTokens(topic.descendants), v))
  }

  /** One walk over the merged terms, in whatever order the map yields them. */
  method MeasureTerms(merged: Terms) returns (longest: nat, weakCount: nat, conflicting: bool)
    ensures forall n: nat :: n > 0 ==> (longest >= n <==> HasTermOf(merged, n))
    ensures weakCount == |merged| <==> AllWeak(merged)
    ensures conflicting <==> exists t :: t in merged && merged[t].conflicting
  {
    longest, weakCount, conflicting := 0, 0, false;
    var rest := merged.Keys;
    ghost var weak: set<string> := {};
    while rest != {}
      invariant rest <= merged.Keys
      invariant forall t :: t in merged && t !in rest ==> |t| <= longest
      invariant longest == 0 || exists t :: t in merged && |t| == longest
      invariant weak == (set t | t in merged && t !in rest && merged[t].weak) && weakCount == |weak|
      invariant conflicting <==> exists t :: t in merged && t !in rest && merged[t].conflicting
      decreases rest
    {
      var t :| t in rest;
      rest := rest - {t};
      if merged[t].conflicting {
        conflicting := true;
      }
      if merged[t].weak {
        weak := weak + {t};
        weakCount := weakCount + 1;
      }
      if |t| > longest {
        longest := |t|;
      }
    }
    WeakCountIsAll(merged, weak);
  }

  lemma WeakCountIsAll(merged: Terms, weak: set<string>)
    requires weak == set t | t in merged && merged[t].weak
    ensures |weak| == |merged| <==> AllWeak(merged)
  {
    assert |merged| == |merged.Keys|;
    if AllWeak(merged) {
      assert weak == merged.Keys;
    } else {
      var t :| t in merged && !merged[t].weak;
      assert weak <= merged.Keys - {t};
      SubsetSize(weak, merged.Keys - {t});
    }
  }

  method EvaluateSubject(item: Item, topic: Topic, v: Vocabulary) returns (m: Subject)
    ensures m == SubjectOf(item, topic, v)
  {
    var heading := CollectSharedTerms(item.tokens, topic.heading, v);
    var hint := CollectSharedTerms(item.tokens, topic.hint, v);
    var context := CollectSharedTerms(item.tokens, topic.context, v);
    var descendant := CollectSharedTerms(item.tokens, DescendantTokens(topic.descendants), v);
    m := MeasureMatch(heading, hint, context, descendant);
  }

  method MeasureStrength(merged: Terms, fromLabel: bool, longest: nat) returns (strength: real)
    requires forall n: nat :: n > 0 ==> (longest >= n <==> HasTermOf(merged, n))
    ensures strength == RawStrength(merged, fromLabel)
  {
    assert longest >= 4 <==> HasTermOf(merged, 4);
    assert longest >= 3 <==> HasTermOf(merged, 3);
    strength := if longest >= 4 then 0.85 else if longest == 3 then 0.70 else 0.45;
    if |merged| >= 2 {
      strength := strength + 0.10;
    }
    if fromLabel {
      strength := strength + 0.10;
    }
    if strength > 1.0 {
      strength := 1.0;
    }
  }

  method MeasureMerged(merged: Terms, fromLabel: bool, fromHint: bool) returns (m: Subject)
    requires merged != map[]
    ensures m == MatchOf(merged, fromLabel, fromHint)
  {
    var longest, weakCount, conflicting := MeasureTerms(merged);
    var strength := MeasureStrength(merged, fromLabel, longest);
    var penalty := 0.0;
    if weakCount == |merged| {
      penalty := strength * 0.5;
    }
    m := Subject(strength - penalty, penalty, conflicting, fromLabel, fromHint,
      fromLabel || fromHint || |merged| >= 2, merged.Keys);
  }

  method MeasureMatch(heading: Terms, hint: Terms, context: Terms, descendant: Terms) returns (m: Subject)
    ensures m == Match(heading, hint, context, descendant)
  {
    var merged := Merge4(heading, hint, context, descendant);
    if merged == map[] {
      return NO_SUBJECT;
    }
    m := MeasureMerged(merged, heading != map[], hint != map[]);
  }

  /** Weakness is a property of the term alone, so merging keeps it. */
  lemma MergeKeepsWeakness(a: Terms, b: Terms, weak: set<string>)
    requires forall t :: t in a ==> a[t].weak == (t in weak)
    requires forall t :: t in b ==> b[t].weak == (t in weak)
    ensures forall t :: t in MergeTerms(a, b) ==> MergeTerms(a, b)[t].weak == (t in weak)
  {}

  lemma SharedWeakness(left: seq<Token>, right: seq<Token>, v: Vocabulary)
    ensures forall t :: t in SharedTerms(left, right, v) ==> SharedTerms(left, right, v)[t].weak == (t in v.weak)
  {
    forall t | t in SharedTerms(left, right, v) ensures SharedTerms(left, right, v)[t].weak == (t in v.weak) {
      SharedTermExactly(left, right, v, t);
    }
  }

  /** A match reaches the subject floor exactly when it is not weak throughout and is long, plural or on the label. */
  lemma ReachesFloorExactlyWhen(heading: Terms, hint: Terms, context: Terms, descendant: Terms)
    ensures var merged := Merge4(heading, hint, context, descendant);
      Match(heading, hint, context, descendant).strength >= SUBJECT_FLOOR <==>
        merged != map[] && !AllWeak(merged) && (HasTermOf(merged, 3) || |merged| >= 2 || heading != map[])
  {}

  lemma MergedWeakness(item: Item, topic: Topic, v: Vocabulary, merged: Terms)
    requires merged == Merge4(SharedTerms(item.tokens, topic.heading, v), SharedTerms(item.tokens, topic.hint, v),
      SharedTerms(item.tokens, topic.context, v), SharedTerms(item.tokens, DescendantTokens(topic.descendants), v))
    ensures forall t :: t in merged ==> merged[t].weak == (t in v.weak)
  {
    var a := SharedTerms(item.tokens, topic.heading, v);
    var b := SharedTerms(item.tokens, topic.hint, v);
    var c := SharedTerms(item.tokens, topic.context, v);
    var d := SharedTerms(item.tokens, DescendantTokens(topic.descendants), v);
    SharedWeakness(item.tokens, topic.heading, v);
    SharedWeakness(item.tokens, topic.hint, v);
    SharedWeakness(item.tokens, topic.context, v);
    SharedWeakness(item.tokens, DescendantTokens(topic.descendants), v);
    MergeKeepsWeakness(map[], a, v.weak);
    MergeKeepsWeakness(MergeTerms(map[], a), b, v.weak);
    MergeKeepsWeakness(MergeTerms(MergeTerms(map[], a), b), c, v.weak);
    MergeKeepsWeakness(MergeTerms(MergeTerms(MergeTerms(map[], a), b), c), d, v.weak);
  }

  /** Only weak terms in common: the match stays below the floor against any topic. */
  lemma WeakTermsStayBelowFloor(item: Item, topic: Topic, v: Vocabulary)
    requires SubjectOf(item, topic, v).terms <= v.weak
    ensures SubjectOf(item, topic, v).strength < SUBJECT_FLOOR
  {
    var a := SharedTerms(item.tokens, topic.heading, v);
    var b := SharedTerms(item.tokens, topic.hint, v);
    var c := SharedTerms(item.tokens, topic.context, v);
    var d := SharedTerms(item.tokens, DescendantTokens(topic.descendants), v);
    var merged := Merge4(a, b, c, d);
    MergedWeakness(item, topic, v, merged);
    AllWeakHalved(a, b, c, d, v.weak);
  }

  lemma AllWeakHalved(a: Terms, b: Terms, c: Terms, d: Terms, weak: set<string>)
    requires Match(a, b, c, d).terms <= weak
    requires forall t :: t in Merge4(a, b, c, d) ==> Merge4(a, b, c, d)[t].weak == (t in weak)
    ensures Match(a, b, c, d).strength < SUBJECT_FLOOR
  {
    var merged := Merge4(a, b, c, d);
    if merged != map[] {
      assert forall t :: t in merged ==> t in Match(a, b, c, d).terms;
      assert AllWeak(merged);
    }
  }

  // --------------------------------------------------------------------- a candidate

  function Distance(a: int, b: int): nat {
    if a < b then b - a else a - b
  }

  /** Evidence support of the pairs of evidence numbers: shared, near, or none. */
  function EvidenceLevel(pairs: set<(int, int)>): real {
    if exists p :: p in pairs && p.0 == p.1 then 1.0
    else if exists p :: p in pairs && Distance(p.0, p.1) <= EVIDENCE_WINDOW then 0.6
    else 0.0
  }

  function EvidencePairs(item: Item, descendants: seq<Descendant>): set<(int, int)> {
    set own, d, other | own in item.evidence && d in descendants && other in d.evidence :: (own, other)
  }

  function Near(level: real, own: int, other: int): real {
    if Distance(own, other) == 0 then 1.0
    else if Distance(own, other) <= EVIDENCE_WINDOW && level < 0.6 then 0.6
    else level
  }

  method EvidenceAgainst(owns: seq<int>, other: int, level0: real, ghost done0: set<(int, int)>)
    returns (level: real, ghost done: set<(int, int)>)
    requires level0 == EvidenceLevel(done0)
    ensures level == EvidenceLevel(done) && done == done0 + set own | own in owns :: (own, other)
  {
    level, done := level0, done0;
    for i := 0 to |owns|
      invariant level == EvidenceLevel(done) && done == done0 + set own | own in owns[..i] :: (own, other)
    {
      assert owns[..i + 1] == owns[..i] + [owns[i]];
      LevelStep(done, (owns[i], other));
      level := Near(level, owns[i], other);
      done := done + {(owns[i], other)};
    }
    assert owns[..|owns|] == owns;
  }

  method EvidenceOfDescendant(item: Item, d: Descendant, level0: real, ghost done0: set<(int, int)>)
    returns (level: real, ghost done: set<(int, int)>)
    requires level0 == EvidenceLevel(done0)
    ensures level == EvidenceLevel(done)
    ensures done == done0 + set own, other | own in item.evidence && other in d.evidence :: (own, other)
  {
    level, done := level0, done0;
    for i := 0 to |d.evidence|
      invariant level == EvidenceLevel(done)
      invariant done == done0 + set own, other | own in item.evidence && other in d.evidence[..i] :: (own, other)
    {
      assert d.evidence[..i + 1] == d.evidence[..i] + [d.evidence[i]];
      level, done := EvidenceAgainst(item.evidence, d.evidence[i], level, done);
    }
    assert d.evidence[..|d.evidence|] == d.evidence;
  }

  lemma LevelStep(pairs: set<(int, int)>, p: (int, int))
    ensures EvidenceLevel(pairs + {p}) == Near(EvidenceLevel(pairs), p.0, p.1)
  {
    var more := pairs + {p};
    assert forall q :: q in more <==> q in pairs || q == p;
    if Distance(p.0, p.1) <= EVIDENCE_WINDOW {
      assert p in more;
    }
  }

  function Most(a: real, b: real): real {
    if a < b then b else a
  }

  predicate Complementary(a: string, b: string, pairs: set<(string, string)>) {
    (a, b) in pairs || (b, a) in pairs
  }

  /** How well the kinds go together, for a descendant that shares a term with the item. */
  function KindFit(item: Item, d: Descendant, pairs: set<(string, string)>): real {
    if d.kind == item.kind then 0.75 else if Complementary(item.kind, d.kind, pairs) then 1.0 else 0.85
  }

  datatype Reason = NoSharedSubject | ConflictingSubject | NotAnchored | BelowFloor | NoSupport | Fits

  datatype Candidate = Candidate(
    topicId: string, subject: Subject, predicateFit: real, relation: real, evidence: real,
    agenda: real, discourse: real, support: real, score: real, eligible: bool, reason: Reason)

  /** Whether the texts conflict in their Latin tokens or numbers. */
  type Conflicts = (string, string) -> bool

  predicate Linked(item: Item, descendants: seq<Descendant>) {
    exists d :: d in descendants && d.id in item.related
  }

  predicate SharesLineage(item: Item, topic: Topic) {
    item.candidateTopicId != "" && (item.candidateTopicId == topic.sourceCandidateId || item.candidateTopicId in topic.aliases)
  }

  function Score(c: Candidate): real {
    0.5 * c.subject.strength + 0.2 * c.predicateFit + 0.3 * c.support
  }

  /** The best fit of kinds with a descendant that shares a term, at least one half. */
  function PredicateFit(item: Item, descendants: seq<Descendant>, v: Vocabulary, pairs: set<(string, string)>): real {
    if descendants == [] then 0.5
    else
      var rest, d := PredicateFit(item, descendants[..|descendants| - 1], v, pairs), descendants[|descendants| - 1];
      if SharedTerms(item.tokens, d.tokens, v) != map[] then Most(rest, KindFit(item, d, pairs)) else rest
  }

  const NO_CANDIDATE := Candidate("", NO_SUBJECT, 0.0, 0.0, 0.0, 0.0, 0.0, 0.0, 0.0, false, NoSharedSubject)

  function Weighed(item: Item, topic: Topic, m: Subject, relation: real, evidence: real, fit: real): Candidate {
    var agenda := if m.fromHint then 1.0 else 0.0;
    var discourse := if SharesLineage(item, topic) then 1.0 else 0.0;
    var support := Most(Most(relation, evidence), Most(agenda, discourse));
    var reason := if !m.anchored then NotAnchored
                  else if m.strength < SUBJECT_FLOOR then BelowFloor
                  else if support < SUPPORT_FLOOR then NoSupport
                  else Fits;
    var c := Candidate(topic.id, m, fit, relation, evidence, agenda, discourse, support, 0.0, reason == Fits, reason);
    c.(score := Score(c))
  }

  function CandidateOf(item: Item, topic: Topic, v: Vocabulary, conflicts: Conflicts, pairs: set<(string, string)>): Candidate {
    var m := SubjectOf(item, topic, v);
    var blank := NO_CANDIDATE.(topicId := topic.id, subject := m);
    if m.terms == {} then blank
    else if m.conflicting || conflicts(item.id, topic.id) then
      blank.(subject := m.(conflicting := true), reason := ConflictingSubject)
    else
      Weighed(item, topic, m, if Linked(item, topic.descendants) then 1.0 else 0.0,
        EvidenceLevel(EvidencePairs(item, topic.descendants)), PredicateFit(item, topic.descendants, v, pairs))
  }

  method FitWith(item: Item, d: Descendant, v: Vocabulary, pairs: set<(string, string)>, fit0: real) returns (fit: real)
    ensures fit == if SharedTerms(item.tokens, d.tokens, v) != map[] then Most(fit0, KindFit(item, d, pairs)) else fit0
  {
    fit := fit0;
    var terms := CollectSharedTerms(item.tokens, d.tokens, v);
    if terms == map[] {
      return;
    }
    var compatibility := KindFit(item, d, pairs);
    if compatibility > fit {
      fit := compatibility;
    }
  }

  method WalkDescendants(item: Item, topic: Topic, v: Vocabulary, pairs: set<(string, string)>)
    returns (relation: real, evidence: real, predicateFit: real)
    ensures relation == (if Linked(item, topic.descendants) then 1.0 else 0.0)
    ensures evidence == EvidenceLevel(EvidencePairs(item, topic.descendants))
    ensures predicateFit == PredicateFit(item, topic.descendants, v, pairs)
  {
    var ds := topic.descendants;
    relation, evidence, predicateFit := 0.0, 0.0, 0.5;
    ghost var done: set<(int, int)> := {};
    for i := 0 to |ds|
      invariant relation == if Linked(item, ds[..i]) then 1.0 else 0.0
      invariant done == EvidencePairs(item, ds[..i]) && evidence == EvidenceLevel(done)
      invariant predicateFit == PredicateFit(item, ds[..i], v, pairs)
    {
      Extended(item, ds, i, v, pairs);
      if ds[i].id in item.related {
        relation := 1.0;
      }
      evidence, done := EvidenceOfDescendant(item, ds[i], evidence, done);
      predicateFit := FitWith(item, ds[i], v, pairs, predicateFit);
    }
    assert ds[..|ds|] == ds;
  }

  /** One more descendant in each of the three measures. */
  lemma Extended(item: Item, ds: seq<Descendant>, i: nat, v: Vocabulary, pairs: set<(string, string)>)
    requires i < |ds|
    ensures Linked(item, ds[..i + 1]) <==> Linked(item, ds[..i]) || ds[i].id in item.related
    ensures EvidencePairs(item, ds[..i + 1]) ==
      EvidencePairs(item, ds[..i]) + set own, other | own in item.evidence && other in ds[i].evidence :: (own, other)
    ensures PredicateFit(item, ds[..i + 1], v, pairs) ==
      if SharedTerms(item.tokens, ds[i].tokens, v) != map[]
      then Most(PredicateFit(item, ds[..i], v, pairs), KindFit(item, ds[i], pairs)) else PredicateFit(item, ds[..i], v, pairs)
  {
    assert ds[..i + 1] == ds[..i] + [ds[i]];
    assert ds[..i + 1][..i] == ds[..i];
    MorePairs(item, ds[..i], ds[i]);
  }

  lemma MorePairs(item: Item, descendants: seq<Descendant>, d: Descendant)
    ensures EvidencePairs(item, descendants + [d]) ==
      EvidencePairs(item, descendants) + set own, other | own in item.evidence && other in d.evidence :: (own, other)
  {}

  /** Support, score and verdict for a subject that does not conflict. */
  method WeighCandidate(item: Item, topic: Topic, m: Subject, relation: real, evidence: real, fit: real) returns (c: Candidate)
    ensures c == Weighed(item, topic, m, relation, evidence, fit)
  {
    c := NO_CANDIDATE.(topicId := topic.id, subject := m, relation := relation, evidence := evidence, predicateFit := fit);
    if m.fromHint {
      c := c.(agenda := 1.0);
    }
    if SharesLineage(item, topic) {
      c := c.(discourse := 1.0);
    }
    c := c.(support := Most(Most(c.relation, c.evidence), Most(c.agenda, c.discourse)));
    c := c.(score := Score(c));
    if !m.anchored {
      c := c.(reason := NotAnchored);
    } else if m.strength < SUBJECT_FLOOR {
      c := c.(reason := BelowFloor);
    } else if c.support < SUPPORT_FLOOR {
      c := c.(reason := NoSupport);
    } else {
      c := c.(eligible := true, reason := Fits);
    }
  }

  method EvaluateCandidate(item: Item, topic: Topic, v: Vocabulary, conflicts: Conflicts, pairs: set<(string, string)>)
    returns (c: Candidate)
    ensures c == CandidateOf(item, topic, v, conflicts, pairs)
  {
    var m := EvaluateSubject(item, topic, v);
    c := NO_CANDIDATE.(topicId := topic.id, subject := m);
    if m.terms == {} {
      return;
    }
    if m.conflicting || conflicts(item.id, topic.id) {
      c := c.(subject := m.(conflicting := true), reason := ConflictingSubject);
      return;
    }
    var relation, evidence, predicateFit := WalkDescendants(item, topic, v, pairs);
    c := WeighCandidate(item, topic, m, relation, evidence, predicateFit);
  }

  /**
    A candidate is eligible exactly when the item and topic share an anchored,
    unconflicted subject above the floor, and are tied by a relation, by evidence
    within the window, by the agenda's hints, or by candidate lineage.
   */
  lemma EligibleExactlyWhen(item: Item, topic: Topic, v: Vocabulary, conflicts: Conflicts, pairs: set<(string, string)>)
    ensures var m := SubjectOf(item, topic, v);
      CandidateOf(item, topic, v, conflicts, pairs).eligible <==>
        && m.terms != {} && !m.conflicting && !conflicts(item.id, topic.id)
        && m.anchored && m.strength >= SUBJECT_FLOOR
        && (Linked(item, topic.descendants) || m.fromHint || SharesLineage(item, topic) || NearEvidence(item, topic))
  {
    LevelReachesFloor(EvidencePairs(item, topic.descendants));
    WeighedExactlyWhen(item, topic, SubjectOf(item, topic, v), if Linked(item, topic.descendants) then 1.0 else 0.0,
      EvidenceLevel(EvidencePairs(item, topic.descendants)), PredicateFit(item, topic.descendants, v, pairs));
  }

  lemma WeighedExactlyWhen(item: Item, topic: Topic, m: Subject, relation: real, evidence: real, fit: real)
    requires relation == 0.0 || relation == 1.0
    ensures Weighed(item, topic, m, relation, evidence, fit).eligible <==>
      m.anchored && m.strength >= SUBJECT_FLOOR
      && (relation == 1.0 || m.fromHint || SharesLineage(item, topic) || evidence >= SUPPORT_FLOOR)
  {}

  predicate NearEvidence(item: Item, topic: Topic) {
    exists p :: p in EvidencePairs(item, topic.descendants) && Distance(p.0, p.1) <= EVIDENCE_WINDOW
  }

  lemma LevelReachesFloor(pairs: set<(int, int)>)
    ensures EvidenceLevel(pairs) >= SUPPORT_FLOOR <==> exists p :: p in pairs && Distance(p.0, p.1) <= EVIDENCE_WINDOW
  {
    if p :| p in pairs && p.0 == p.1 {
      assert Distance(p.0, p.1) <= EVIDENCE_WINDOW;
    }
  }

  /** An item whose shared terms are all weak is never eligible, for any topic. */
  lemma WeakTermsAreNeverEligible(item: Item, topic: Topic, v: Vocabulary, conflicts: Conflicts, pairs: set<(string, string)>)
    requires SubjectOf(item, topic, v).terms <= v.weak
    ensures !CandidateOf(item, topic, v, conflicts, pairs).eligible
  {
    WeakTermsStayBelowFloor(item, topic, v);
    EligibleExactlyWhen(item, topic, v, conflicts, pairs);
  }

  // ---------------------------------------------------------------------- the choice

  predicate Ahead(a: Candidate, b: Candidate) {
    if a.eligible != b.eligible then a.eligible
    else if a.score != b.score then a.score > b.score
    else LexLe(a.topicId, b.topicId)
  }

  datatype Decision = Applied(topicId: string) | Ambiguous | Deferred

  /** Good enough, and ahead of every other eligible candidate by the margin. */
  predicate Wins(candidates: seq<Candidate>, k: int)
    requires 0 <= k < |candidates|
  {
    && candidates[k].eligible && candidates[k].score >= SCORE_FLOOR
    && forall j :: 0 <= j < |candidates| && j != k && candidates[j].eligible ==>
         candidates[k].score - candidates[j].score >= SCORE_MARGIN
  }

  method Choose(candidates: seq<Candidate>) returns (decision: Decision)
    requires candidates != []
    ensures decision.Applied? <==> exists k :: 0 <= k < |candidates| && Wins(candidates, k)
    ensures decision.Applied? ==> exists k :: 0 <= k < |candidates| && Wins(candidates, k) && candidates[k].topicId == decision.topicId
  {
    AheadIsTotal();
    SortFacts(candidates, Ahead);
    var sorted := Sort(candidates, Ahead);
    var best := sorted[0];
    var second := NO_CANDIDATE;
    if |sorted| > 1 && sorted[1].eligible {
      second := sorted[1];
    }
    SortedWinner(sorted);
    SameWinners(candidates, sorted);
    SameWinners(sorted, candidates);
    if !best.eligible || best.score < SCORE_FLOOR {
      return Deferred;
    }
    if best.score - second.score < SCORE_MARGIN {
      return Ambiguous;
    }
    assert Wins(sorted, 0);
    return Applied(best.topicId);
  }

  lemma AheadIsTotal()
    ensures Total(Ahead)
  {
    LexOrders();
    forall a: Candidate, b: Candidate ensures LexLe(a.topicId, b.topicId) || LexLe(b.topicId, a.topicId) {}
    forall a: Candidate, b: Candidate, c: Candidate | LexLe(a.topicId, b.topicId) && LexLe(b.topicId, c.topicId)
      ensures LexLe(a.topicId, c.topicId)
    {}
  }

  /** Only the first of the sorted candidates can win, and the second decides whether it does. */
  lemma SortedWinner(sorted: seq<Candidate>)
    requires sorted != [] && Sorted(sorted, Ahead)
    ensures forall k :: 0 < k < |sorted| ==> !Wins(sorted, k)
    ensures Wins(sorted, 0) <==>
      && sorted[0].eligible && sorted[0].score >= SCORE_FLOOR
      && (|sorted| > 1 && sorted[1].eligible ==> sorted[0].score - sorted[1].score >= SCORE_MARGIN)
  {
    forall k | 0 < k < |sorted| ensures !Wins(sorted, k) {
      assert Ahead(sorted[0], sorted[k]);
    }
    forall k | 1 < k < |sorted| ensures sorted[k].eligible ==> sorted[1].eligible && sorted[k].score <= sorted[1].score {
      assert Ahead(sorted[1], sorted[k]);
    }
  }

  /** Rearranging the candidates rearranges who wins. */
  lemma SameWinners(a: seq<Candidate>, b: seq<Candidate>)
    requires multiset(a) == multiset(b)
    ensures forall k :: 0 <= k < |a| && Wins(a, k) ==> exists j :: 0 <= j < |b| && Wins(b, j) && b[j] == a[k]
  {
    forall k | 0 <= k < |a| && Wins(a, k) ensures exists j :: 0 <= j < |b| && Wins(b, j) && b[j] == a[k] {
      assert a[k] in multiset(b);
      var j :| 0 <= j < |b| && b[j] == a[k];
      forall i | 0 <= i < |b| && i != j && b[i].eligible ensures b[j].score - b[i].score >= SCORE_MARGIN {
        OtherOccurrence(a, b, k, j, i);
      }
      assert Wins(b, j);
    }
  }

  lemma OtherOccurrence(a: seq<Candidate>, b: seq<Candidate>, k: int, j: int, i: int)
    requires multiset(a) == multiset(b) && 0 <= k < |a| && 0 <= j < |b| && 0 <= i < |b| && i != j && a[k] == b[j]
    ensures exists l :: 0 <= l < |a| && l != k && a[l] == b[i]
  {
    var restA, restB := a[..k] + a[k + 1..], b[..j] + b[j + 1..];
    MapRemoves(a, c => c, k);
    MapRemoves(b, c => c, j);
    assert multiset(restA) == multiset(restB);
    assert b[i] == restB[if i < j then i else i - 1];
    assert b[i] in multiset(restA);
    var l :| 0 <= l < |restA| && restA[l] == b[i];
    assert a[if l < k then l else l + 1] == b[i];
  }

  function CandidatesOf(item: Item, topics: seq<Topic>, v: Vocabulary, conflicts: Conflicts, pairs: set<(string, string)>): seq<Candidate> {
    Map(topics, topic => CandidateOf(item, topic, v, conflicts, pairs))
  }

  /** The topic whose score beats every other eligible topic's by the margin. */
  ghost predicate AttachesTo(item: Item, topics: seq<Topic>, v: Vocabulary, conflicts: Conflicts, pairs: set<(string, string)>, topicId: string) {
    exists k :: 0 <= k < |topics| && Wins(CandidatesOf(item, topics, v, conflicts, pairs), k) && topics[k].id == topicId
  }

  ghost predicate SomeTopicWins(item: Item, topics: seq<Topic>, v: Vocabulary, conflicts: Conflicts, pairs: set<(string, string)>) {
    exists k :: 0 <= k < |topics| && Wins(CandidatesOf(item, topics, v, conflicts, pairs), k)
  }

  method EvaluateTopics(item: Item, topics: seq<Topic>, v: Vocabulary, conflicts: Conflicts, pairs: set<(string, string)>)
    returns (candidates: seq<Candidate>)
    ensures candidates == CandidatesOf(item, topics, v, conflicts, pairs)
  {
    candidates := [];
    for k := 0 to |topics|
      invariant |candidates| == k
      invariant forall j :: 0 <= j < k ==> candidates[j] == CandidateOf(item, topics[j], v, conflicts, pairs)
    {
      var c := EvaluateCandidate(item, topics[k], v, conflicts, pairs);
      candidates := candidates + [c];
    }
  }

  lemma CandidateNamesTopic(item: Item, topics: seq<Topic>, v: Vocabulary, conflicts: Conflicts, pairs: set<(string, string)>, k: nat)
    requires k < |topics|
    ensures CandidatesOf(item, topics, v, conflicts, pairs)[k].topicId == topics[k].id
  {}

  method DecideItem(item: Item, topics: seq<Topic>, v: Vocabulary, conflicts: Conflicts, pairs: set<(string, string)>)
    returns (decision: Decision)
    requires topics != []
    ensures decision.Applied? <==> SomeTopicWins(item, topics, v, conflicts, pairs)
    ensures decision.Applied? ==> AttachesTo(item, topics, v, conflicts, pairs, decision.topicId)
  {
    var candidates := EvaluateTopics(item, topics, v, conflicts, pairs);
    decision := Choose(candidates);
    if decision.Applied? {
      ghost var k: nat :| k < |candidates| && Wins(candidates, k) && candidates[k].topicId == decision.topicId;
      CandidateNamesTopic(item, topics, v, conflicts, pairs, k);
    }
  }

  /** The decision taken for one item. */
  ghost predicate Decided(item: Item, grounded: set<string>, topics: seq<Topic>, v: Vocabulary,
      conflicts: Conflicts, pairs: set<(string, string)>, decision: Decision)
  {
    && (decision.Applied? <==> item.id in grounded && SomeTopicWins(item, topics, v, conflicts, pairs))
    && (decision.Applied? ==> AttachesTo(item, topics, v, conflicts, pairs, decision.topicId))
  }

  method AttachItem(item: Item, grounded: set<string>, topics: seq<Topic>, v: Vocabulary,
      conflicts: Conflicts, pairs: set<(string, string)>) returns (decision: Decision)
    ensures Decided(item, grounded, topics, v, conflicts, pairs, decision)
  {
    decision := Deferred;
    if item.id in grounded && topics != [] {
      decision := DecideItem(item, topics, v, conflicts, pairs);
    }
  }

  /** Each grounded item in turn; `conflicts` judges the texts of item and topic. */
  method AttachSingletons(items: seq<Item>, grounded: set<string>, topics: seq<Topic>, v: Vocabulary,
      conflicts: Conflicts, pairs: set<(string, string)>) returns (decisions: seq<Decision>)
    ensures |decisions| == |items|
    ensures forall i :: 0 <= i < |items| ==> Decided(items[i], grounded, topics, v, conflicts, pairs, decisions[i])
  {
    decisions := [];
    for i := 0 to |items|
      invariant |decisions| == i
      invariant forall j :: 0 <= j < i ==> Decided(items[j], grounded, topics, v, conflicts, pairs, decisions[j])
    {
      var decision := AttachItem(items[i], grounded, topics, v, conflicts, pairs);
      decisions := decisions + [decision];
    }
  }
}
