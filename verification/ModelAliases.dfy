/**
  Who owns an alias the model uses for a topic (internal/application/ai_agenda_anchor.go):
  arbitration by score with a margin, moving an alias to its owner, and the pass that
  resolves aliases listed by several agenda topics.  Alias lists are sets here; maps
  are walked in an arbitrary order.
 */
module ModelAliases {
  import opened Basics
  import opened Options

  const MIN_SCORE := 0.62
  const MIN_MARGIN := 0.10

  // ------------------------------------------------------------------- arbitration

  /** One grounded assignment: the model's alias, the agenda it ended under, and its score. */
  datatype Claim = Claim(alias: string, agendaId: string, score: real)

  type Scores = map<string, real>

  function ScoreOf(scores: Scores, agendaId: string): real {
    if agendaId in scores then scores[agendaId] else 0.0
  }

  /** The best score of each agenda for one alias; only scores above zero are entered. */
  function ScoresFor(claims: seq<Claim>, alias: string): Scores {
    if claims == [] then map[]
    else
      var rest, claim := ScoresFor(claims[..|claims| - 1], alias), claims[|claims| - 1];
      if claim.alias == alias && claim.score > ScoreOf(rest, claim.agendaId) then rest[claim.agendaId := claim.score] else rest
  }

  /** An entry is the score of some claim, above zero, and no claim of that agenda scores higher. */
  lemma {:induction false} EntryIsBestClaim(claims: seq<Claim>, alias: string, a: string)
    ensures var scores := ScoresFor(claims, alias);
      && (a in scores ==> scores[a] > 0.0)
      && (a in scores ==> exists c :: c in claims && c.alias == alias && c.agendaId == a && c.score == scores[a])
      && (forall c :: c in claims && c.alias == alias && c.agendaId == a && c.score > 0.0 ==>
           a in scores && c.score <= scores[a])
  {
    if claims != [] {
      EntryIsBestClaim(claims[..|claims| - 1], alias, a);
      assert claims == claims[..|claims| - 1] + [claims[|claims| - 1]];
    }
  }

  /** The claims in another order give the same scores. */
  lemma ScoresIgnoreOrder(claims: seq<Claim>, reordered: seq<Claim>, alias: string)
    requires forall c :: c in claims <==> c in reordered
    ensures ScoresFor(claims, alias) == ScoresFor(reordered, alias)
  {
    ScoresCovered(claims, reordered, alias);
    ScoresCovered(reordered, claims, alias);
    assert ScoresFor(claims, alias).Keys == ScoresFor(reordered, alias).Keys;
  }

  lemma ScoresCovered(claims: seq<Claim>, others: seq<Claim>, alias: string)
    requires forall c :: c in claims ==> c in others
    ensures forall a :: a in ScoresFor(claims, alias) ==>
      a in ScoresFor(others, alias) && ScoresFor(claims, alias)[a] <= ScoresFor(others, alias)[a]
  {
    forall a | a in ScoresFor(claims, alias)
      ensures a in ScoresFor(others, alias) && ScoresFor(claims, alias)[a] <= ScoresFor(others, alias)[a]
    {
      EntryIsBestClaim(claims, alias, a);
      EntryIsBestClaim(others, alias, a);
      var c :| c in claims && c.alias == alias && c.agendaId == a && c.score == ScoresFor(claims, alias)[a];
      assert c in others;
    }
  }

  /** Ahead of every other claimant by the margin. */
  predicate Owns(scores: Scores, agendaId: string) {
    agendaId in scores && forall other :: other in scores && other != agendaId ==> scores[agendaId] - scores[other] >= MIN_MARGIN
  }

  /** Best and second best among the claimants looked at so far. */
  ghost predicate Ranking(scores: Scores, seen: set<string>, bestId: string, best: real, second: real) {
    && (bestId == "" ==> seen == {} && best == 0.0 && second == 0.0)
    && (bestId != "" ==> bestId in seen && bestId in scores && best == scores[bestId])
    && (forall a :: a in seen && a != bestId && a in scores ==> scores[a] <= second)
    && second <= best
    && (second == 0.0 || exists a :: a in seen && a in scores && a != bestId && scores[a] == second)
  }

  /** Walks the claimants in whatever order the map yields them. */
  method RankClaimants(scores: Scores) returns (bestId: string, best: real, second: real)
    requires "" !in scores && forall a :: a in scores ==> scores[a] > 0.0
    ensures Ranking(scores, scores.Keys, bestId, best, second)
  {
    bestId, best, second := "", 0.0, 0.0;
    var rest := scores.Keys;
    while rest != {}
      invariant rest <= scores.Keys
      invariant Ranking(scores, scores.Keys - rest, bestId, best, second)
      decreases rest
    {
      var agendaId :| agendaId in rest;
      var score := scores[agendaId];
      ghost var seen := scores.Keys - rest;
      rest := rest - {agendaId};
      assert scores.Keys - rest == seen + {agendaId};
      if score > best {
        bestId, best, second := agendaId, score, best;
      } else if score > second {
        second := score;
      }
    }
    assert scores.Keys - rest == scores.Keys;
  }

  /** An owner is the only claimant or ahead by the margin; several claimants without an owner are ambiguous. */
  method Arbitrate(scores: Scores) returns (owner: Option<string>, ambiguous: bool)
    requires "" !in scores && forall a :: a in scores ==> scores[a] > 0.0
    ensures forall a :: owner == Some(a) <==> Owns(scores, a)
    ensures ambiguous <==> |scores| > 1 && forall a :: !Owns(scores, a)
  {
    var bestId, best, second := RankClaimants(scores);
    OwnerFromRanking(scores, bestId, best, second);
    if bestId != "" && (|scores| == 1 || best - second >= MIN_MARGIN) {
      return Some(bestId), false;
    }
    return None, |scores| > 1;
  }

  lemma OwnerFromRanking(scores: Scores, bestId: string, best: real, second: real)
    requires "" !in scores && forall a :: a in scores ==> scores[a] > 0.0
    requires Ranking(scores, scores.Keys, bestId, best, second)
    ensures bestId == "" ==> |scores| == 0 && forall a :: !Owns(scores, a)
    ensures bestId != "" && (|scores| == 1 || best - second >= MIN_MARGIN) ==> forall a :: Owns(scores, a) <==> a == bestId
    ensures bestId != "" && |scores| != 1 && best - second < MIN_MARGIN ==> |scores| > 1 && forall a :: !Owns(scores, a)
  {
    if bestId == "" {
      assert scores == map[];
    } else if |scores| == 1 {
      assert scores.Keys == {bestId} by { OneKey(scores.Keys, bestId); }
    } else {
      assert |scores.Keys| > 1 by {
        assert |scores| == |scores.Keys|;
        if |scores.Keys| == 0 {
          assert bestId in scores.Keys;
        }
      }
      if best - second < MIN_MARGIN {
        Runner(scores, bestId, best, second);
      }
      forall a | Owns(scores, a) ensures a == bestId {}
    }
  }

  lemma OneKey(keys: set<string>, x: string)
    requires |keys| == 1 && x in keys
    ensures keys == {x}
  {
    assert |keys - {x}| == 0;
  }

  /** With two claimants or more there is one that scores the second best. */
  lemma Runner(scores: Scores, bestId: string, best: real, second: real)
    requires Ranking(scores, scores.Keys, bestId, best, second) && bestId != "" && |scores.Keys| > 1
    requires forall a :: a in scores ==> scores[a] > 0.0
    ensures exists a :: a in scores && a != bestId && scores[a] == second
  {
    assert |scores.Keys - {bestId}| > 0;
    var other :| other in scores.Keys - {bestId};
    assert scores[other] <= second;
  }

  function Lookup(scores: map<string, Scores>, alias: string): Scores {
    if alias in scores then scores[alias] else map[]
  }

  method CollectScores(claims: seq<Claim>) returns (scores: map<string, Scores>)
    ensures scores.Keys == set c | c in claims :: c.alias
    ensures forall alias :: Lookup(scores, alias) == ScoresFor(claims, alias)
  {
    scores := map[];
    for i := 0 to |claims|
      invariant scores.Keys == set c | c in claims[..i] :: c.alias
      invariant forall alias :: Lookup(scores, alias) == ScoresFor(claims[..i], alias)
    {
      assert claims[..i + 1] == claims[..i] + [claims[i]] && claims[..i + 1][..i] == claims[..i];
      var claim := claims[i];
      var byAgenda := Lookup(scores, claim.alias);
      if claim.score > ScoreOf(byAgenda, claim.agendaId) {
        byAgenda := byAgenda[claim.agendaId := claim.score];
      }
      scores := scores[claim.alias := byAgenda];
    }
    assert claims[..|claims|] == claims;
  }

  /** For the claims of a round, agenda IDs being those of records: the owner of each alias, and the ambiguous ones. */
  method ResolveAliases(claims: seq<Claim>) returns (owners: map<string, string>, ambiguous: set<string>)
    requires forall c :: c in claims ==> c.agendaId != ""
    ensures forall alias :: alias in owners ==> Owns(ScoresFor(claims, alias), owners[alias])
    ensures forall alias, a :: Owns(ScoresFor(claims, alias), a) ==> alias in owners && owners[alias] == a
    ensures forall alias :: alias in ambiguous <==>
      |ScoresFor(claims, alias)| > 1 && forall a :: !Owns(ScoresFor(claims, alias), a)
  {
    var scores := CollectScores(claims);
    owners, ambiguous := map[], {};
    var rest := scores.Keys;
    while rest != {}
      invariant rest <= scores.Keys && owners.Keys !! rest && ambiguous !! rest
      invariant forall alias :: alias in owners ==> Owns(ScoresFor(claims, alias), owners[alias])
      invariant forall alias, a :: alias !in rest && Owns(ScoresFor(claims, alias), a) ==> alias in owners && owners[alias] == a
      invariant forall alias :: alias !in rest ==> (alias in ambiguous <==>
        |ScoresFor(claims, alias)| > 1 && forall a :: !Owns(ScoresFor(claims, alias), a))
      decreases rest
    {
      var alias :| alias in rest;
      rest := rest - {alias};
      EntriesAreClaims(claims, alias);
      assert Lookup(scores, alias) == scores[alias];
      var owner, isAmbiguous := Arbitrate(scores[alias]);
      if owner.Some? {
        owners := owners[alias := owner.value];
      }
      if isAmbiguous {
        ambiguous := ambiguous + {alias};
      }
    }
  }

  lemma EntriesAreClaims(claims: seq<Claim>, alias: string)
    requires forall c :: c in claims ==> c.agendaId != ""
    ensures "" !in ScoresFor(claims, alias) && forall a :: a in ScoresFor(claims, alias) ==> ScoresFor(claims, alias)[a] > 0.0
  {
    EntryIsBestClaim(claims, alias, "");
    forall a | a in ScoresFor(claims, alias) ensures ScoresFor(claims, alias)[a] > 0.0 {
      EntryIsBestClaim(claims, alias, a);
    }
  }

  // ------------------------------------------------------------------ moving an alias

  /** The aliases each topic lists, with the white space they were written with. */
  type Topics = map<string, set<string>>

  type Trim = string -> string

  ghost predicate Trims(trim: Trim) {
    trim("") == "" && forall x :: trim(trim(x)) == trim(x)
  }

  function Clean(aliases: set<string>, trim: Trim): set<string> {
    set x | x in aliases && trim(x) != "" :: trim(x)
  }

  function Drop(aliases: set<string>, alias: string, trim: Trim): set<string> {
    set x | x in aliases && trim(x) != alias
  }

  function Moved(aliases: set<string>, isTarget: bool, alias: string, trim: Trim): set<string> {
    Clean(Drop(aliases, alias, trim), trim) + if isTarget then {alias} else {}
  }

  method MoveAlias(topics: Topics, targetId: string, rawAlias: string, trim: Trim) returns (moved: Topics)
    ensures moved.Keys == topics.Keys
    ensures trim(rawAlias) == "" ==> moved == topics
    ensures trim(rawAlias) != "" ==>
      forall t :: t in topics ==> moved[t] == Moved(topics[t], t == targetId, trim(rawAlias), trim)
  {
    var alias := trim(rawAlias);
    moved := topics;
    if alias == "" {
      return;
    }
    var rest := topics.Keys;
    while rest != {}
      invariant rest <= topics.Keys == moved.Keys
      invariant forall t :: t in topics && t in rest ==> moved[t] == topics[t]
      invariant forall t :: t in topics && t !in rest ==> moved[t] == Moved(topics[t], t == targetId, alias, trim)
      decreases rest
    {
      var t :| t in rest;
      rest := rest - {t};
      moved := moved[t := Moved(moved[t], t == targetId, alias, trim)];
    }
  }

  predicate Lists(topics: Topics, t: string, alias: string, trim: Trim) {
    t in topics && exists x :: x in topics[t] && trim(x) == alias
  }

  /** After a move the alias is listed by its target alone, and every other alias where it was. */
  lemma MoveGivesTargetTheAlias(topics: Topics, moved: Topics, targetId: string, alias: string, trim: Trim)
    requires Trims(trim) && alias != "" && trim(alias) == alias && moved.Keys == topics.Keys
    requires forall t :: t in topics ==> moved[t] == Moved(topics[t], t == targetId, alias, trim)
    ensures forall t :: Lists(moved, t, alias, trim) <==> t == targetId && t in topics
    ensures forall t, other :: other != alias && other != "" ==> (Lists(moved, t, other, trim) <==> Lists(topics, t, other, trim))
  {
    forall t, x | t in topics && x in moved[t]
      ensures trim(x) == x && x != "" && (x != alias ==> exists y :: y in topics[t] && trim(y) == x)
    {}
    forall t, other | other != alias && other != "" && Lists(topics, t, other, trim)
      ensures Lists(moved, t, other, trim)
    {
      var y :| y in topics[t] && trim(y) == other;
      assert y in Drop(topics[t], alias, trim);
      assert other in moved[t];
    }
    if targetId in topics {
      assert alias in moved[targetId];
    }
  }

  // ---------------------------------------------------------------- the conflict pass

  function Holders(topics: Topics, alias: string, trim: Trim): set<string> {
    set t | t in topics && alias in Clean(topics[t], trim)
  }

  /** The topic that keeps a contested alias: a good enough score, ahead of all other holders. */
  predicate Selected(scores: Scores, holders: set<string>, t: string) {
    && t in holders && ScoreOf(scores, t) >= MIN_SCORE
    && forall other :: other in holders && other != t ==> ScoreOf(scores, t) - ScoreOf(scores, other) >= MIN_MARGIN
  }

  /** Raw spellings equal to the alias go, unless the topic keeps it; what stays is trimmed. */
  function Strip(aliases: set<string>, alias: string, keeps: bool, trim: Trim): set<string> {
    Clean((set x | x in aliases && (x != alias || keeps)), trim)
  }

  method SelectHolder(scores: Scores, holders: set<string>) returns (selected: string)
    requires |holders| >= 2 && "" !in holders && forall t :: t in holders ==> ScoreOf(scores, t) >= 0.0
    ensures selected == "" || Selected(scores, holders, selected)
    ensures forall t :: Selected(scores, holders, t) ==> selected == t
  {
    var bestId, best, second := "", 0.0, 0.0;
    var rest := holders;
    ghost var runner := "";
    while rest != {}
      invariant rest <= holders
      invariant (bestId == "" ==> best == 0.0 && second == 0.0) && (bestId != "" ==> bestId in holders - rest && best == ScoreOf(scores, bestId))
      invariant forall t :: t in holders - rest && t != bestId ==> ScoreOf(scores, t) <= second
      invariant 0.0 <= second <= best
      invariant second == 0.0 || (runner in holders - rest && runner != bestId && ScoreOf(scores, runner) == second)
      decreases rest
    {
      var t :| t in rest;
      rest := rest - {t};
      var score := ScoreOf(scores, t);
      if score > best {
        runner := bestId;
        bestId, best, second := t, score, best;
      } else if score > second {
        runner := t;
        second := score;
      }
    }
    forall t | Selected(scores, holders, t) ensures bestId == t && best >= MIN_SCORE && best - second >= MIN_MARGIN {
      SelectedIsBest(scores, holders, t, bestId, best, second, runner);
    }
    if best >= MIN_SCORE && best - second >= MIN_MARGIN {
      return bestId;
    }
    return "";
  }

  lemma SelectedIsBest(scores: Scores, holders: set<string>, t: string, bestId: string, best: real, second: real, runner: string)
    requires Selected(scores, holders, t) && "" !in holders
    requires forall h :: h in holders ==> ScoreOf(scores, h) >= 0.0
    requires (bestId == "" ==> best == 0.0 && second == 0.0) && (bestId != "" ==> bestId in holders && best == ScoreOf(scores, bestId))
    requires forall h :: h in holders && h != bestId ==> ScoreOf(scores, h) <= second
    requires 0.0 <= second <= best
    requires second == 0.0 || (runner in holders && runner != bestId && ScoreOf(scores, runner) == second)
    ensures bestId == t && best >= MIN_SCORE && best - second >= MIN_MARGIN
  {}

  predicate Contested(topics: Topics, alias: string, trim: Trim) {
    |Holders(topics, alias, trim)| >= 2
  }

  /** Whether the pass rewrites the topic's list when it comes to this alias. */
  predicate Rewrites(topics: Topics, t: string, alias: string, trim: Trim) {
    Contested(topics, alias, trim) && t in Holders(topics, alias, trim)
  }

  /** A topic's list after the first `k` aliases of the order; holders are those of the lists as given. */
  function Passed(topics: Topics, scores: Scores, trim: Trim, t: string, order: seq<string>, k: nat): set<string>
    requires t in topics && k <= |order|
  {
    if k == 0 then topics[t]
    else
      var before, alias := Passed(topics, scores, trim, t, order, k - 1), order[k - 1];
      if Rewrites(topics, t, alias, trim)
      then Strip(before, alias, Selected(scores, Holders(topics, alias, trim), t), trim) else before
  }

  function AliasesOf(topics: Topics, trim: Trim): set<string> {
    set t, x | t in topics && x in Clean(topics[t], trim) :: x
  }

  /** An order in which the map may yield the aliases. */
  ghost predicate IsOrder(order: seq<string>, aliases: set<string>) {
    && (forall x :: x in order <==> x in aliases)
    && forall i, j :: 0 <= i < j < |order| ==> order[i] != order[j]
  }

  ghost predicate IsPass(topics: Topics, scores: Scores, trim: Trim, order: seq<string>, result: Topics) {
    && IsOrder(order, AliasesOf(topics, trim))
    && result.Keys == topics.Keys
    && forall t :: t in topics ==> result[t] == Passed(topics, scores, trim, t, order, |order|)
  }

  /** Every alias listed by two or more agenda topics, in whatever order the map yields them. */
  method ReconcileConflicts(topics: Topics, scores: Scores, trim: Trim) returns (result: Topics)
    requires "" !in topics && forall t :: t in topics ==> ScoreOf(scores, t) >= 0.0
    ensures exists order :: IsPass(topics, scores, trim, order, result)
  {
    result := topics;
    ghost var order: seq<string> := [];
    var rest := AliasesOf(topics, trim);
    while rest != {}
      invariant rest <= AliasesOf(topics, trim)
      invariant IsOrder(order, AliasesOf(topics, trim) - rest)
      invariant result.Keys == topics.Keys
      invariant forall t :: t in topics ==> result[t] == Passed(topics, scores, trim, t, order, |order|)
      decreases rest
    {
      var alias :| alias in rest;
      rest := rest - {alias};
      var holders := Holders(topics, alias, trim);
      var selected := "";
      if |holders| >= 2 {
        selected := SelectHolder(scores, holders);
        assert forall t :: t in holders ==> (t == selected <==> Selected(scores, holders, t));
        result := map t | t in result :: if t in holders then Strip(result[t], alias, t == selected, trim) else result[t];
      }
      forall t | t in topics ensures result[t] == Passed(topics, scores, trim, t, order + [alias], |order| + 1) {
        PassedNext(topics, scores, trim, t, order, alias);
      }
      order := order + [alias];
    }
    assert IsPass(topics, scores, trim, order, result);
  }

  lemma PassedNext(topics: Topics, scores: Scores, trim: Trim, t: string, order: seq<string>, alias: string)
    requires t in topics
    ensures var before := Passed(topics, scores, trim, t, order, |order|);
      Passed(topics, scores, trim, t, order + [alias], |order| + 1) ==
        if Rewrites(topics, t, alias, trim)
        then Strip(before, alias, Selected(scores, Holders(topics, alias, trim), t), trim) else before
  {
    PassedPrefix(topics, scores, trim, t, order, alias, |order|);
  }

  lemma {:induction false} PassedPrefix(topics: Topics, scores: Scores, trim: Trim, t: string, order: seq<string>, alias: string, k: nat)
    requires t in topics && k <= |order|
    ensures Passed(topics, scores, trim, t, order + [alias], k) == Passed(topics, scores, trim, t, order, k)
  {
    if k > 0 {
      PassedPrefix(topics, scores, trim, t, order, alias, k - 1);
    }
  }

  // --------------------------------------------------------- the outcome of the pass

  predicate Keeps(topics: Topics, scores: Scores, trim: Trim, t: string, alias: string) {
    !Contested(topics, alias, trim) || Selected(scores, Holders(topics, alias, trim), t)
  }

  /** The topic lists the alias with other white space around it. */
  predicate ListsUntrimmed(topics: Topics, t: string, alias: string, trim: Trim) {
    t in topics && exists x :: x in topics[t] && x != alias && trim(x) == alias
  }

  /** Nothing contested that the topic holds comes before position `i` of the order. */
  ghost predicate UntouchedUntil(topics: Topics, trim: Trim, t: string, order: seq<string>, i: nat)
    requires i <= |order|
  {
    forall j :: 0 <= j < i ==> !Rewrites(topics, t, order[j], trim)
  }

  /** The alias is the first contested one of its topic that the pass comes to. */
  ghost predicate ComesFirst(topics: Topics, trim: Trim, t: string, order: seq<string>, k: nat, alias: string)
    requires k <= |order|
  {
    exists i :: 0 <= i < k && order[i] == alias && UntouchedUntil(topics, trim, t, order, i)
  }

  ghost predicate Survives(topics: Topics, scores: Scores, trim: Trim, t: string, order: seq<string>, k: nat, alias: string)
    requires t in topics && k <= |order|
  {
    && alias in Clean(topics[t], trim)
    && (|| alias !in order[..k]
        || Keeps(topics, scores, trim, t, alias)
        || (ListsUntrimmed(topics, t, alias, trim) && ComesFirst(topics, trim, t, order, k, alias)))
  }

  /** A list the pass has come to is trimmed, and holds the aliases that survive; any other is as it was. */
  ghost predicate PassedSo(topics: Topics, scores: Scores, trim: Trim, t: string, order: seq<string>, k: nat, list: set<string>)
    requires t in topics && k <= |order|
  {
    if UntouchedUntil(topics, trim, t, order, k) then list == topics[t]
    else forall x :: x in list <==> Survives(topics, scores, trim, t, order, k, x)
  }

  /** One step on any list: everything is trimmed, and the alias goes unless it is kept or spelled otherwise. */
  lemma StripEffect(list: set<string>, alias: string, keeps: bool, trim: Trim, x: string)
    requires Trims(trim) && alias != "" && trim(alias) == alias
    ensures x in Strip(list, alias, keeps, trim) <==>
      x in Clean(list, trim) && (x != alias || keeps || exists y :: y in list && y != alias && trim(y) == alias)
  {
    var kept := set y | y in list && (y != alias || keeps);
    if x in Clean(list, trim) {
      var y :| y in list && trim(y) != "" && trim(y) == x;
      if y !in kept && exists z :: z in list && z != alias && trim(z) == alias {
        var z :| z in list && z != alias && trim(z) == alias;
        assert z in kept;
      }
    }
  }

  lemma CleanIsTrimmed(list: set<string>, trim: Trim, x: string)
    requires Trims(trim) && x in Clean(list, trim)
    ensures trim(x) == x && x != ""
  {}

  lemma UntouchedStep(topics: Topics, trim: Trim, t: string, order: seq<string>, k: nat)
    requires k < |order|
    ensures UntouchedUntil(topics, trim, t, order, k + 1) <==>
      UntouchedUntil(topics, trim, t, order, k) && !Rewrites(topics, t, order[k], trim)
  {}

  /** Which aliases the next step of the pass takes from the survivors of one topic. */
  lemma SurvivesStep(topics: Topics, scores: Scores, trim: Trim, t: string, order: seq<string>, k: nat, x: string)
    requires t in topics && k < |order| && IsOrder(order, AliasesOf(topics, trim))
    ensures x != order[k] ==>
      (Survives(topics, scores, trim, t, order, k + 1, x) <==> Survives(topics, scores, trim, t, order, k, x))
    ensures x == order[k] ==> (Survives(topics, scores, trim, t, order, k + 1, x) <==>
      x in Clean(topics[t], trim)
      && (Keeps(topics, scores, trim, t, x)
          || (ListsUntrimmed(topics, t, x, trim) && UntouchedUntil(topics, trim, t, order, k))))
    ensures x == order[k] ==> (Survives(topics, scores, trim, t, order, k, x) <==> x in Clean(topics[t], trim))
  {
    assert order[..k + 1] == order[..k] + [order[k]];
    assert order[k] !in order[..k];
    if x == order[k] && UntouchedUntil(topics, trim, t, order, k) {
      assert ComesFirst(topics, trim, t, order, k + 1, x);
    }
    if x != order[k] && ComesFirst(topics, trim, t, order, k, x) {
      assert ComesFirst(topics, trim, t, order, k + 1, x);
    }
  }

  lemma FirstRewrite(topics: Topics, scores: Scores, trim: Trim, t: string, order: seq<string>, k: nat)
    requires Trims(trim) && t in topics && k < |order| && IsOrder(order, AliasesOf(topics, trim))
    requires UntouchedUntil(topics, trim, t, order, k) && Rewrites(topics, t, order[k], trim)
    ensures var alias := order[k];
      PassedSo(topics, scores, trim, t, order, k + 1,
        Strip(topics[t], alias, Selected(scores, Holders(topics, alias, trim), t), trim))
  {
    var alias := order[k];
    var keeps := Selected(scores, Holders(topics, alias, trim), t);
    CleanIsTrimmed(topics[t], trim, alias);
    UntouchedStep(topics, trim, t, order, k);
    forall x ensures x in Strip(topics[t], alias, keeps, trim) <==> Survives(topics, scores, trim, t, order, k + 1, x) {
      StripEffect(topics[t], alias, keeps, trim, x);
      SurvivesStep(topics, scores, trim, t, order, k, x);
      if x in order[..k] && x in Clean(topics[t], trim) {
        var i :| 0 <= i < k && order[i] == x;
        assert !Rewrites(topics, t, order[i], trim);
      }
    }
  }

  lemma LaterRewrite(topics: Topics, scores: Scores, trim: Trim, t: string, order: seq<string>, k: nat, list: set<string>)
    requires Trims(trim) && t in topics && k < |order| && IsOrder(order, AliasesOf(topics, trim))
    requires !UntouchedUntil(topics, trim, t, order, k) && Rewrites(topics, t, order[k], trim)
    requires PassedSo(topics, scores, trim, t, order, k, list)
    ensures var alias := order[k];
      PassedSo(topics, scores, trim, t, order, k + 1, Strip(list, alias, Selected(scores, Holders(topics, alias, trim), t), trim))
  {
    var alias := order[k];
    var keeps := Selected(scores, Holders(topics, alias, trim), t);
    CleanIsTrimmed(topics[t], trim, alias);
    forall x | x in list ensures trim(x) == x && x != "" {
      CleanIsTrimmed(topics[t], trim, x);
    }
    CleanKeepsTrimmed(list, trim);
    UntouchedStep(topics, trim, t, order, k);
    forall x ensures x in Strip(list, alias, keeps, trim) <==> Survives(topics, scores, trim, t, order, k + 1, x) {
      StripEffect(list, alias, keeps, trim, x);
      SurvivesStep(topics, scores, trim, t, order, k, x);
    }
  }

  lemma CleanKeepsTrimmed(aliases: set<string>, trim: Trim)
    requires forall x :: x in aliases ==> trim(x) == x != ""
    ensures Clean(aliases, trim) == aliases
  {
    forall x | x in aliases ensures x in Clean(aliases, trim) {
      assert trim(x) == x;
    }
  }

  lemma NoRewrite(topics: Topics, scores: Scores, trim: Trim, t: string, order: seq<string>, k: nat, list: set<string>)
    requires t in topics && k < |order| && IsOrder(order, AliasesOf(topics, trim)) && !Rewrites(topics, t, order[k], trim)
    requires PassedSo(topics, scores, trim, t, order, k, list)
    ensures PassedSo(topics, scores, trim, t, order, k + 1, list)
  {
    UntouchedStep(topics, trim, t, order, k);
    forall x ensures Survives(topics, scores, trim, t, order, k, x) <==> Survives(topics, scores, trim, t, order, k + 1, x) {
      SurvivesStep(topics, scores, trim, t, order, k, x);
    }
  }

  /**
    The pass on any lists, in any order.  A topic that holds no contested alias
    keeps its list as written.  Any other list comes out trimmed, and holds an
    alias it held before exactly when the alias is not contested, or the topic is
    selected for it, or it is spelled with other white space and comes first.
   */
  lemma {:induction false} PassExactly(topics: Topics, scores: Scores, trim: Trim, t: string, order: seq<string>, k: nat)
    requires Trims(trim) && t in topics && k <= |order| && IsOrder(order, AliasesOf(topics, trim))
    ensures PassedSo(topics, scores, trim, t, order, k, Passed(topics, scores, trim, t, order, k))
  {
    if k > 0 {
      PassExactly(topics, scores, trim, t, order, k - 1);
      var before := Passed(topics, scores, trim, t, order, k - 1);
      if !Rewrites(topics, t, order[k - 1], trim) {
        NoRewrite(topics, scores, trim, t, order, k - 1, before);
      } else if UntouchedUntil(topics, trim, t, order, k - 1) {
        FirstRewrite(topics, scores, trim, t, order, k - 1);
      } else {
        LaterRewrite(topics, scores, trim, t, order, k - 1, before);
      }
    }
  }

  /** Who holds an alias when the pass is over. */
  lemma HoldersAfter(topics: Topics, scores: Scores, trim: Trim, order: seq<string>, result: Topics, t: string, alias: string)
    requires Trims(trim) && IsPass(topics, scores, trim, order, result) && t in topics
    ensures t in Holders(result, alias, trim) <==>
      && t in Holders(topics, alias, trim)
      && (|| Keeps(topics, scores, trim, t, alias)
          || (ListsUntrimmed(topics, t, alias, trim) && ComesFirst(topics, trim, t, order, |order|, alias)))
  {
    PassExactly(topics, scores, trim, t, order, |order|);
    var list := result[t];
    assert order[..|order|] == order;
    if UntouchedUntil(topics, trim, t, order, |order|) {
      if t in Holders(topics, alias, trim) {
        assert alias in AliasesOf(topics, trim) && alias in order;
        var i :| 0 <= i < |order| && order[i] == alias;
        assert !Rewrites(topics, t, order[i], trim);
      }
    } else {
      forall x | x in list ensures trim(x) == x && x != "" {
        CleanIsTrimmed(topics[t], trim, x);
      }
      CleanKeepsTrimmed(list, trim);
      if t in Holders(topics, alias, trim) {
        assert alias in AliasesOf(topics, trim);
      }
    }
  }

  /** A topic the pass may leave a contested alias on. */
  predicate MayKeep(topics: Topics, scores: Scores, trim: Trim, t: string, alias: string) {
    && t in Holders(topics, alias, trim)
    && (Selected(scores, Holders(topics, alias, trim), t) || ListsUntrimmed(topics, t, alias, trim))
  }

  ghost predicate OneMayKeep(topics: Topics, scores: Scores, trim: Trim) {
    forall alias, a, b :: Contested(topics, alias, trim) && MayKeep(topics, scores, trim, a, alias) && MayKeep(topics, scores, trim, b, alias) ==>
      a == b
  }

  ghost predicate OneHolderEach(topics: Topics, trim: Trim) {
    forall alias, a, b :: a in Holders(topics, alias, trim) && b in Holders(topics, alias, trim) ==> a == b
  }

  ghost predicate AlwaysOneHolder(topics: Topics, scores: Scores, trim: Trim) {
    forall order, result :: IsPass(topics, scores, trim, order, result) ==> OneHolderEach(result, trim)
  }

  lemma OneHolderLeft(topics: Topics, scores: Scores, trim: Trim, order: seq<string>, result: Topics)
    requires Trims(trim) && OneMayKeep(topics, scores, trim) && IsPass(topics, scores, trim, order, result)
    ensures OneHolderEach(result, trim)
  {
    forall alias, a, b | a in Holders(result, alias, trim) && b in Holders(result, alias, trim) ensures a == b {
      HoldersAfter(topics, scores, trim, order, result, a, alias);
      HoldersAfter(topics, scores, trim, order, result, b, alias);
      if !Contested(topics, alias, trim) {
        if a != b {
          SubsetSize({a, b}, Holders(topics, alias, trim));
        }
      } else {
        assert MayKeep(topics, scores, trim, a, alias) && MayKeep(topics, scores, trim, b, alias);
      }
    }
  }

  /** The order that comes to `alias` first. */
  lemma {:induction false} OrderStartingWith(aliases: set<string>, alias: string) returns (order: seq<string>)
    requires alias in aliases
    ensures IsOrder(order, aliases) && order[0] == alias
    decreases aliases
  {
    if aliases == {alias} {
      order := [alias];
    } else {
      assert aliases - {alias} != {} by {
        assert aliases == (aliases - {alias}) + {alias};
      }
      var other :| other in aliases - {alias};
      var front := OrderStartingWith(aliases - {other}, alias);
      order := front + [other];
    }
  }

  lemma TwoMayStay(topics: Topics, scores: Scores, trim: Trim, alias: string, a: string, b: string)
    requires Trims(trim) && Contested(topics, alias, trim) && a != b
    requires MayKeep(topics, scores, trim, a, alias) && MayKeep(topics, scores, trim, b, alias)
    ensures !AlwaysOneHolder(topics, scores, trim)
  {
    assert alias in AliasesOf(topics, trim);
    var order := OrderStartingWith(AliasesOf(topics, trim), alias);
    var result := map t | t in topics :: Passed(topics, scores, trim, t, order, |order|);
    assert IsPass(topics, scores, trim, order, result);
    assert UntouchedUntil(topics, trim, a, order, 0) && UntouchedUntil(topics, trim, b, order, 0);
    HoldersAfter(topics, scores, trim, order, result, a, alias);
    HoldersAfter(topics, scores, trim, order, result, b, alias);
    assert a in Holders(result, alias, trim) && b in Holders(result, alias, trim);
    assert !OneHolderEach(result, trim);
  }

  /**
    Whatever the order, the pass leaves each alias on one topic at most, exactly
    when for each contested alias at most one of its topics is selected for it or
    lists it with other white space.
   */
  lemma OneHolderExactlyWhen(topics: Topics, scores: Scores, trim: Trim)
    requires Trims(trim)
    ensures AlwaysOneHolder(topics, scores, trim) <==> OneMayKeep(topics, scores, trim)
  {
    if OneMayKeep(topics, scores, trim) {
      forall order, result | IsPass(topics, scores, trim, order, result) ensures OneHolderEach(result, trim) {
        OneHolderLeft(topics, scores, trim, order, result);
      }
    } else {
      var alias, a, b :|
        Contested(topics, alias, trim) && MayKeep(topics, scores, trim, a, alias) && MayKeep(topics, scores, trim, b, alias) && a != b;
      TwoMayStay(topics, scores, trim, alias, a, b);
    }
  }

  ghost predicate Trimmed(topics: Topics, trim: Trim) {
    forall t, x :: t in topics && x in topics[t] ==> trim(x) == x != ""
  }

  /** Lists that are stored trimmed always meet the condition: only a selected topic may keep an alias. */
  lemma TrimmedListsSettle(topics: Topics, scores: Scores, trim: Trim)
    requires Trims(trim) && Trimmed(topics, trim)
    ensures AlwaysOneHolder(topics, scores, trim)
  {
    forall alias, a, b | Contested(topics, alias, trim) && MayKeep(topics, scores, trim, a, alias) && MayKeep(topics, scores, trim, b, alias)
      ensures a == b
    {
      assert !ListsUntrimmed(topics, a, alias, trim) && !ListsUntrimmed(topics, b, alias, trim);
    }
    OneHolderExactlyWhen(topics, scores, trim);
  }

  /** Once more always settles it: what one pass leaves contested, the next one finds trimmed. */
  lemma SecondPassSettles(topics: Topics, scores: Scores, trim: Trim, order: seq<string>, result: Topics, later: Scores)
    requires Trims(trim) && IsPass(topics, scores, trim, order, result)
    ensures AlwaysOneHolder(result, later, trim)
  {
    forall alias, a, b | Contested(result, alias, trim) && MayKeep(result, later, trim, a, alias) && MayKeep(result, later, trim, b, alias)
      ensures a == b
    {
      StillContestedIsTrimmed(topics, scores, trim, order, result, alias, a);
      StillContestedIsTrimmed(topics, scores, trim, order, result, alias, b);
    }
    OneHolderExactlyWhen(result, later, trim);
  }

  lemma StillContestedIsTrimmed(topics: Topics, scores: Scores, trim: Trim, order: seq<string>, result: Topics, alias: string, t: string)
    requires Trims(trim) && IsPass(topics, scores, trim, order, result)
    requires Contested(result, alias, trim) && t in Holders(result, alias, trim)
    ensures !ListsUntrimmed(result, t, alias, trim)
  {
    HoldersAfter(topics, scores, trim, order, result, t, alias);
    forall other | other in Holders(result, alias, trim) ensures other in Holders(topics, alias, trim) {
      HoldersAfter(topics, scores, trim, order, result, other, alias);
    }
    SubsetSize(Holders(result, alias, trim), Holders(topics, alias, trim));
    PassExactly(topics, scores, trim, t, order, |order|);
    assert alias in AliasesOf(topics, trim) && alias in order;
    var i :| 0 <= i < |order| && order[i] == alias;
    assert Rewrites(topics, t, order[i], trim);
    forall x | x in result[t] ensures trim(x) == x {
      CleanIsTrimmed(topics[t], trim, x);
    }
  }

  /** Two topics of a stored tree that list the same alias with a space before it both keep it. */
  lemma UntrimmedAliasStaysContested(scores: Scores, trim: Trim)
    requires Trims(trim) && trim(" vpn") == "vpn"
    ensures var topics: Topics := map["t1" := {" vpn"}, "t2" := {" vpn"}];
      exists order, result :: IsPass(topics, scores, trim, order, result) && "vpn" in result["t1"] && "vpn" in result["t2"]
  {
    var topics: Topics := map["t1" := {" vpn"}, "t2" := {" vpn"}];
    var alias := "vpn";
    assert alias in Clean({" vpn"}, trim);
    assert "t1" in topics && alias in Clean(topics["t1"], trim);
    assert alias in AliasesOf(topics, trim);
    assert "t1"[1] != "t2"[1] && " vpn"[0] != alias[0];
    assert Holders(topics, alias, trim) == {"t1", "t2"};
    var order := OrderStartingWith(AliasesOf(topics, trim), alias);
    var result := map t | t in topics :: Passed(topics, scores, trim, t, order, |order|);
    assert order[..|order|] == order;
    forall t | t in topics ensures alias in result[t] {
      assert " vpn" in topics[t] && ListsUntrimmed(topics, t, alias, trim);
      assert UntouchedUntil(topics, trim, t, order, 0) && Rewrites(topics, t, order[0], trim);
      PassExactly(topics, scores, trim, t, order, |order|);
    }
    assert IsPass(topics, scores, trim, order, result);
  }
}
