/** The two-pass round-robin choice of items worth watching. */
module WorthWatching {
  import opened Common

  datatype Candidate = Candidate(item: int, agent: int)

  /** A chosen row and the rule it was chosen for. */
  datatype Pick = Pick(rule: nat, row: Candidate)

  predicate ValidRow(row: Candidate) {
    row.item > 0 && row.agent > 0
  }

  function Items(picks: seq<Pick>): set<int> {
    set p | p in picks :: p.row.item
  }

  function Authors(picks: seq<Pick>): set<int> {
    set p | p in picks :: p.row.agent
  }

  /** The row cannot be chosen (any more) in a pass. */
  predicate Skipped(row: Candidate, items: set<int>, authors: set<int>, newAuthor: bool) {
    !ValidRow(row) || row.item in items || (newAuthor && row.agent in authors)
  }

  ghost predicate Picks(rules: seq<seq<Candidate>>, picks: seq<Pick>) {
    forall i | 0 <= i < |picks| ::
        picks[i].rule < |rules| && picks[i].row in rules[picks[i].rule] && ValidRow(picks[i].row)
  }

  ghost predicate DistinctItems(picks: seq<Pick>) {
    forall i, j | 0 <= i < j < |picks| :: picks[i].row.item != picks[j].row.item
  }

  ghost predicate DistinctAuthors(picks: seq<Pick>) {
    forall i, j | 0 <= i < j < |picks| :: picks[i].row.agent != picks[j].row.agent
  }

  /** No row of any rule is left that the pass could still choose. */
  ghost predicate Exhausted(rules: seq<seq<Candidate>>, picks: seq<Pick>, newAuthor: bool) {
    forall r, p | 0 <= r < |rules| && 0 <= p < |rules[r]| ::
        Skipped(rules[r][p], Items(picks), Authors(picks), newAuthor)
  }

  /** Pick `i` could be chosen after the picks before it, and no earlier row of its rule could. */
  ghost predicate ChoiceAt(rules: seq<seq<Candidate>>, picks: seq<Pick>, i: nat, newAuthor: bool)
    requires i < |picks| && picks[i].rule < |rules|
  {
    FirstChoice(rules[picks[i].rule], picks[i].row, Items(picks[..i]), Authors(picks[..i]), newAuthor)
  }

  ghost predicate FirstChoice(rows: seq<Candidate>, row: Candidate, items: set<int>, authors: set<int>,
                              newAuthor: bool) {
    && !Skipped(row, items, authors, newAuthor)
    && exists p | 0 <= p < |rows| && rows[p] == row ::
        forall q | 0 <= q < p :: Skipped(rows[q], items, authors, newAuthor)
  }

  ghost predicate Choices(rules: seq<seq<Candidate>>, picks: seq<Pick>, base: nat, newAuthor: bool)
    requires Picks(rules, picks)
  {
    forall i {:trigger ChoiceAt(rules, picks, i, newAuthor)} | base <= i < |picks| ::
        ChoiceAt(rules, picks, i, newAuthor)
  }

  /** The round of a pass in which a rule took a row. */
  datatype Turn = Turn(round: nat, rule: nat)

  predicate Earlier(a: Turn, b: Turn) {
    a.round < b.round || (a.round == b.round && a.rule < b.rule)
  }

  /**
   The picks from `base` on come in rounds: a round takes at most one row of a rule, in rule order,
   and a rule takes part in a round only if it took part in the round before.
   */
  ghost predicate RoundRobin(picks: seq<Pick>, base: nat, turns: seq<Turn>) {
    && base + |turns| == |picks|
    && (forall i | 0 <= i < |turns| :: picks[base + i].rule == turns[i].rule)
    && InOrder(turns)
    && (forall t <- turns :: t.round > 0 ==> Turn(t.round - 1, t.rule) in turns)
  }

  /** No row of the rule can be chosen. */
  ghost predicate SkipsAll(rows: seq<Candidate>, items: set<int>, authors: set<int>, newAuthor: bool) {
    forall p | 0 <= p < |rows| :: Skipped(rows[p], items, authors, newAuthor)
  }

  /** A rule that missed a turn before `turn` had nothing left to choose after the picks `before`. */
  ghost predicate MissedOk(rules: seq<seq<Candidate>>, before: seq<Pick>, turns: seq<Turn>, turn: Turn,
                           newAuthor: bool) {
    forall u: Turn {:trigger u in turns} | u.rule < |rules| && Earlier(u, turn) ::
      u in turns || SkipsAll(rules[u.rule], Items(before), Authors(before), newAuthor)
  }

  /** No rule is passed over while it still has a row to choose. */
  ghost predicate NoneMissed(rules: seq<seq<Candidate>>, picks: seq<Pick>, base: nat, turns: seq<Turn>, newAuthor: bool)
    requires base + |turns| == |picks|
  {
    forall i | 0 <= i < |turns| :: MissedOk(rules, picks[..base + i], turns, turns[i], newAuthor)
  }

  ghost predicate InOrder(turns: seq<Turn>) {
    forall i, j | 0 <= i < j < |turns| :: Earlier(turns[i], turns[j])
  }

  // ----------------------------------------------------------------- one rule

  /** Advances a rule's cursor past rows that cannot be chosen, up to and including the row it takes. */
  method TakeNext(rows: seq<Candidate>, start: nat, items: set<int>, authors: set<int>, newAuthor: bool)
    returns (cursor: nat, taken: Option<Candidate>)
    requires start <= |rows|
    ensures LookedAt(rows, start, cursor, taken, items, authors, newAuthor)
  {
    cursor, taken := start, None;
    while cursor < |rows|
      invariant start <= cursor <= |rows| && taken.None?
      invariant forall p | start <= p < cursor :: Skipped(rows[p], items, authors, newAuthor)
    {
      var row := rows[cursor];
      cursor := cursor + 1;
      if row.item <= 0 || row.agent <= 0 { continue; }
      if row.item in items { continue; }
      if newAuthor && row.agent in authors { continue; }
      taken := Some(row);
      break;
    }
  }

  lemma Appended(picks: seq<Pick>, pick: Pick)
    ensures Items(picks + [pick]) == Items(picks) + {pick.row.item}
    ensures Authors(picks + [pick]) == Authors(picks) + {pick.row.agent}
  {
  }

  lemma AppendedDistinct(picks: seq<Pick>, pick: Pick)
    requires DistinctItems(picks) && pick.row.item !in Items(picks)
    ensures DistinctItems(picks + [pick])
  {
    var more := picks + [pick];
    forall i, j | 0 <= i < j < |more| ensures more[i].row.item != more[j].row.item {
      if j == |picks| { assert picks[i] in picks; }
    }
  }

  lemma AppendedAuthors(picks: seq<Pick>, pick: Pick)
    requires DistinctAuthors(picks) && pick.row.agent !in Authors(picks)
    ensures DistinctAuthors(picks + [pick])
  {
    var more := picks + [pick];
    forall i, j | 0 <= i < j < |more| ensures more[i].row.agent != more[j].row.agent {
      if j == |picks| { assert picks[i] in picks; }
    }
  }

  lemma AppendedTurn(picks: seq<Pick>, base: nat, turns: seq<Turn>, pick: Pick, turn: Turn)
    requires RoundRobin(picks, base, turns) && turn.rule == pick.rule
    requires forall t <- turns :: Earlier(t, turn)
    requires turn.round > 0 ==> Turn(turn.round - 1, turn.rule) in turns
    ensures RoundRobin(picks + [pick], base, turns + [turn])
  {
    var all := turns + [turn];
    forall i, j | 0 <= i < j < |all| ensures Earlier(all[i], all[j]) {
      if j == |turns| { assert turns[i] in turns; }
    }
  }

  lemma AppendedChoice(rules: seq<seq<Candidate>>, picks: seq<Pick>, base: nat, newAuthor: bool, pick: Pick)
    requires Picks(rules, picks) && Choices(rules, picks, base, newAuthor) && Picks(rules, picks + [pick])
    requires pick.rule < |rules| && FirstChoice(rules[pick.rule], pick.row, Items(picks), Authors(picks), newAuthor)
    ensures Choices(rules, picks + [pick], base, newAuthor)
  {
    var more := picks + [pick];
    forall i | base <= i < |more| ensures ChoiceAt(rules, more, i, newAuthor) {
      if i < |picks| {
        assert ChoiceAt(rules, picks, i, newAuthor);
        assert more[..i] == picks[..i];
      } else {
        assert more[..i] == picks;
      }
    }
  }

  // ----------------------------------------------------------------- one pass

  /** What holds between two rules of a round. */
  ghost predicate PassOk(rules: seq<seq<Candidate>>, cursors: seq<nat>, picks: seq<Pick>, newAuthor: bool) {
    && |cursors| == |rules|
    && (forall r | 0 <= r < |rules| :: cursors[r] <= |rules[r]|)
    && (forall r, p | 0 <= r < |rules| && 0 <= p < cursors[r] ::
          Skipped(rules[r][p], Items(picks), Authors(picks), newAuthor))
    && Picks(rules, picks) && DistinctItems(picks)
  }

  /** A rule that still has rows has taken every turn it had so far. */
  ghost predicate RoundOk(rules: seq<seq<Candidate>>, cursors: seq<nat>, picks: seq<Pick>, base: nat, turns: seq<Turn>,
                          round: nat, next: nat) {
    && |cursors| == |rules|
    && RoundRobin(picks, base, turns)
    && (forall t <- turns :: Earlier(t, Turn(round, next)))
    && (forall u: Turn {:trigger u in turns} |
          u.rule < |rules| && Earlier(u, Turn(round, next)) && cursors[u.rule] < |rules[u.rule]| :: u in turns)
  }

  lemma TakeKeepsPass(rules: seq<seq<Candidate>>, cursors: seq<nat>, picks: seq<Pick>, newAuthor: bool, r: nat,
                      cursor: nat, taken: Option<Candidate>)
    requires PassOk(rules, cursors, picks, newAuthor) && r < |rules|
    requires LookedAt(rules[r], cursors[r], cursor, taken, Items(picks), Authors(picks), newAuthor)
    ensures PassOk(rules, cursors[r := cursor], if taken.Some? then picks + [Pick(r, taken.value)]
                   else picks, newAuthor)
  {
    if taken.Some? {
      Appended(picks, Pick(r, taken.value));
      AppendedDistinct(picks, Pick(r, taken.value));
    }
  }

  lemma TakenIsFirst(rules: seq<seq<Candidate>>, cursors: seq<nat>, picks: seq<Pick>, newAuthor: bool, r: nat,
                     cursor: nat)
    requires PassOk(rules, cursors, picks, newAuthor) && r < |rules| && cursors[r] < cursor <= |rules[r]|
    requires LookedAt(rules[r], cursors[r], cursor, Some(rules[r][cursor - 1]), Items(picks), Authors(picks), newAuthor)
    ensures FirstChoice(rules[r], rules[r][cursor - 1], Items(picks), Authors(picks), newAuthor)
  {
    forall q | 0 <= q < cursor - 1 ensures Skipped(rules[r][q], Items(picks), Authors(picks), newAuthor) {}
  }

  method Pass(rules: seq<seq<Candidate>>, limit: nat, before: seq<Pick>, newAuthor: bool)
    returns (picks: seq<Pick>, ghost turns: seq<Turn>)
    requires |before| <= limit && Picks(rules, before) && DistinctItems(before)
    requires (newAuthor ==> DistinctAuthors(before))
    ensures before <= picks && |picks| <= limit
    ensures Picks(rules, picks) && DistinctItems(picks) && (newAuthor ==> DistinctAuthors(picks))
    ensures |picks| < limit ==> Exhausted(rules, picks, newAuthor)
    ensures RoundRobin(picks, |before|, turns) && Choices(rules, picks, |before|, newAuthor)
    ensures NoneMissed(rules, picks, |before|, turns, newAuthor)
  {
    picks, turns := before, [];
    var cursors := seq(|rules|, _ => 0);
    ghost var round: nat := 0;
    while |picks| < limit
      invariant before <= picks && |picks| <= limit
      invariant PassOk(rules, cursors, picks, newAuthor) && (newAuthor ==> DistinctAuthors(picks))
      invariant Choices(rules, picks, |before|, newAuthor)
      invariant |before| + |turns| == |picks| && NoneMissed(rules, picks, |before|, turns, newAuthor)
      invariant RoundRobin(picks, |before|, turns)
      invariant (|picks| < limit ==> RoundOk(rules, cursors, picks, |before|, turns, round, 0))
      decreases limit - |picks|
    {
      var progressed;
      picks, cursors, progressed, turns := Round(rules, limit, picks, cursors, newAuthor, |before|, turns, round);
      if !progressed { return; }
      round := round + 1;
      if |picks| < limit { NextRound(rules, cursors, picks, |before|, turns, round - 1); }
    }
  }

  lemma NextRound(rules: seq<seq<Candidate>>, cursors: seq<nat>, picks: seq<Pick>, base: nat, turns: seq<Turn>,
                  round: nat)
    requires RoundOk(rules, cursors, picks, base, turns, round, |rules|)
    ensures RoundOk(rules, cursors, picks, base, turns, round + 1, 0)
  {
  }

  /** Everything that holds of a pass between two rules. */
  ghost predicate TurnOk(rules: seq<seq<Candidate>>, cursors: seq<nat>, picks: seq<Pick>, newAuthor: bool,
                         base: nat, turns: seq<Turn>, round: nat, next: nat)
  {
    && PassOk(rules, cursors, picks, newAuthor) && (newAuthor ==> DistinctAuthors(picks))
    && RoundOk(rules, cursors, picks, base, turns, round, next) && Choices(rules, picks, base, newAuthor)
    && NoneMissed(rules, picks, base, turns, newAuthor)
  }

  /** The turn of rule `r`: it takes its next row, if it has one. */
  method TakeTurn(rules: seq<seq<Candidate>>, r: nat, picks0: seq<Pick>, cursors0: seq<nat>, newAuthor: bool,
                  ghost base: nat, ghost turns0: seq<Turn>, ghost round: nat)
    returns (picks: seq<Pick>, cursors: seq<nat>, progressed: bool, ghost turns: seq<Turn>)
    requires r < |rules| && TurnOk(rules, cursors0, picks0, newAuthor, base, turns0, round, r)
    ensures TurnOk(rules, cursors, picks, newAuthor, base, turns, round, r + 1)
    ensures picks0 <= picks && |picks| == |picks0| + if progressed then 1 else 0
    ensures !progressed ==> cursors == cursors0[r := |rules[r]|]
  {
    var cursor, taken := TakeNext(rules[r], cursors0[r], Items(picks0), Authors(picks0), newAuthor);
    TakeKeepsTurn(rules, cursors0, picks0, newAuthor, base, turns0, round, r, cursor, taken);
    cursors := cursors0[r := cursor];
    picks, turns, progressed := picks0, turns0, taken.Some?;
    if progressed {
      picks := picks0 + [Pick(r, taken.value)];
      turns := turns0 + [Turn(round, r)];
    }
  }

  /** The rows up to `cursor` have been looked at, and the last of them was taken if any was. */
  ghost predicate LookedAt(rows: seq<Candidate>, start: nat, cursor: nat, taken: Option<Candidate>, items: set<int>,
                           authors: set<int>, newAuthor: bool) {
    && start <= cursor <= |rows|
    && (if taken.Some? then start < cursor && taken.value == rows[cursor - 1]
        && !Skipped(taken.value, items, authors, newAuthor) else cursor == |rows|)
    && forall p | start <= p < (if taken.Some? then cursor - 1 else cursor) ::
        Skipped(rows[p], items, authors, newAuthor)
  }

  lemma TakeKeepsTurn(rules: seq<seq<Candidate>>, cursors: seq<nat>, picks: seq<Pick>, newAuthor: bool,
                      base: nat, turns: seq<Turn>, round: nat, r: nat, cursor: nat, taken: Option<Candidate>)
    requires r < |rules| && TurnOk(rules, cursors, picks, newAuthor, base, turns, round, r)
    requires LookedAt(rules[r], cursors[r], cursor, taken, Items(picks), Authors(picks), newAuthor)
    ensures if taken.Some? then TurnOk(rules, cursors[r := cursor], picks + [Pick(r, taken.value)], newAuthor, base,
                                       turns + [Turn(round, r)], round, r + 1)
            else TurnOk(rules, cursors[r := cursor], picks, newAuthor, base, turns, round, r + 1)
  {
    TakeKeepsPass(rules, cursors, picks, newAuthor, r, cursor, taken);
    TakeKeepsRound(rules, cursors, picks, base, turns, round, r, cursor, taken);
    if taken.Some? {
      if newAuthor { AppendedAuthors(picks, Pick(r, taken.value)); }
      TakenIsFirst(rules, cursors, picks, newAuthor, r, cursor);
      AppendedChoice(rules, picks, base, newAuthor, Pick(r, taken.value));
      TurnNotMissed(rules, cursors, picks, newAuthor, base, turns, round, r);
      AppendedMissed(rules, picks, base, turns, newAuthor, Pick(r, taken.value), Turn(round, r));
    }
  }

  lemma TurnNotMissed(rules: seq<seq<Candidate>>, cursors: seq<nat>, picks: seq<Pick>, newAuthor: bool,
                      base: nat, turns: seq<Turn>, round: nat, r: nat)
    requires r < |rules| && TurnOk(rules, cursors, picks, newAuthor, base, turns, round, r)
    ensures MissedOk(rules, picks, turns, Turn(round, r), newAuthor)
  {
    forall u: Turn | u.rule < |rules| && Earlier(u, Turn(round, r)) && u !in turns
      ensures SkipsAll(rules[u.rule], Items(picks), Authors(picks), newAuthor)
    {
      assert cursors[u.rule] == |rules[u.rule]|;
    }
  }

  lemma AppendedMissed(rules: seq<seq<Candidate>>, picks: seq<Pick>, base: nat, turns: seq<Turn>, newAuthor: bool,
                       pick: Pick, turn: Turn)
    requires base + |turns| == |picks| && NoneMissed(rules, picks, base, turns, newAuthor)
    requires MissedOk(rules, picks, turns, turn, newAuthor)
    ensures NoneMissed(rules, picks + [pick], base, turns + [turn], newAuthor)
  {
    var more, all := picks + [pick], turns + [turn];
    forall i | 0 <= i < |all| ensures MissedOk(rules, more[..base + i], all, all[i], newAuthor) {
      if i < |turns| {
        assert MissedOk(rules, picks[..base + i], turns, turns[i], newAuthor);
        assert more[..base + i] == picks[..base + i];
      } else {
        assert more[..base + i] == picks;
      }
    }
  }

  /** One round: each rule in turn takes its next row. */
  method Round(rules: seq<seq<Candidate>>, limit: nat, picks0: seq<Pick>, cursors0: seq<nat>, newAuthor: bool,
               ghost base: nat, ghost turns0: seq<Turn>, ghost round: nat)
    returns (picks: seq<Pick>, cursors: seq<nat>, progressed: bool, ghost turns: seq<Turn>)
    requires |picks0| < limit && TurnOk(rules, cursors0, picks0, newAuthor, base, turns0, round, 0)
    ensures picks0 <= picks && |picks| <= limit && (progressed ==> |picks0| < |picks|)
    ensures PassOk(rules, cursors, picks, newAuthor) && (newAuthor ==> DistinctAuthors(picks))
    ensures RoundRobin(picks, base, turns) && Choices(rules, picks, base, newAuthor)
    ensures NoneMissed(rules, picks, base, turns, newAuthor)
    ensures |picks| < limit ==> RoundOk(rules, cursors, picks, base, turns, round, |rules|)
    ensures !progressed ==> picks == picks0 && Exhausted(rules, picks, newAuthor)
  {
    picks, cursors, progressed, turns := picks0, cursors0, false, turns0;
    for r := 0 to |rules|
      invariant picks0 <= picks && |picks| < limit && (progressed <==> |picks0| < |picks|)
      invariant TurnOk(rules, cursors, picks, newAuthor, base, turns, round, r)
      invariant !progressed ==> picks == picks0 && forall q | 0 <= q < r :: cursors[q] == |rules[q]|
    {
      var took;
      picks, cursors, took, turns := TakeTurn(rules, r, picks, cursors, newAuthor, base, turns, round);
      progressed := progressed || took;
      if |picks| >= limit { return; }
    }
  }

  lemma TakeKeepsRound(rules: seq<seq<Candidate>>, cursors: seq<nat>, picks: seq<Pick>, base: nat, turns: seq<Turn>,
                       round: nat, r: nat, cursor: nat, taken: Option<Candidate>)
    requires RoundOk(rules, cursors, picks, base, turns, round, r) && r < |rules| && cursors[r] <= cursor <= |rules[r]|
    requires taken.Some? ==> cursors[r] < |rules[r]|
    requires taken.None? ==> cursor == |rules[r]|
    ensures if taken.Some? then RoundOk(rules, cursors[r := cursor], picks + [Pick(r, taken.value)], base,
                                        turns + [Turn(round, r)], round, r + 1)
            else RoundOk(rules, cursors[r := cursor], picks, base, turns, round, r + 1)
  {
    if taken.Some? {
      var pick := Pick(r, taken.value);
      AppendedTurn(picks, base, turns, pick, Turn(round, r));
    }
  }

  // ----------------------------------------------------------------- the selector

  /** What selectUniqueHomeWorthWatching promises; the first `split` picks are those of the first pass. */
  ghost predicate Selection(rules: seq<seq<Candidate>>, limit: int, picks: seq<Pick>, split: nat) {
    && split <= |picks| && |picks| <= (if limit > 0 then limit else 0)
    && Picks(rules, picks) && DistinctItems(picks)
    && DistinctAuthors(picks[..split])
    && (split < |picks| ==> Exhausted(rules, picks[..split], true))
    && (|picks| < limit ==> Exhausted(rules, picks, false))
  }

  /** A selection whose two passes each take the first choosable row of the rules in round-robin order. */
  ghost predicate Selected(rules: seq<seq<Candidate>>, limit: int, picks: seq<Pick>) {
    exists split: nat, first: seq<Turn>, second: seq<Turn> :: TwoPasses(rules, limit, picks, split, first, second)
  }

  ghost predicate TwoPasses(rules: seq<seq<Candidate>>, limit: int, picks: seq<Pick>, split: nat, first: seq<Turn>,
                            second: seq<Turn>) {
    && Selection(rules, limit, picks, split)
    && RoundRobin(picks[..split], 0, first) && Choices(rules, picks[..split], 0, true)
    && NoneMissed(rules, picks[..split], 0, first, true)
    && RoundRobin(picks, split, second) && Choices(rules, picks, split, false)
    && NoneMissed(rules, picks, split, second, false)
  }

  /** selectUniqueHomeWorthWatching */
  method SelectUnique(rules: seq<seq<Candidate>>, limit: int) returns (picks: seq<Pick>)
    ensures Selected(rules, limit, picks)
  {
    picks := [];
    if limit <= 0 || |rules| == 0 {
      assert TwoPasses(rules, limit, picks, 0, [], []);
      return;
    }
    ghost var first, second;
    picks, first := Pass(rules, limit, [], true);
    ghost var diverse := picks;
    picks, second := Pass(rules, limit, picks, false);
    assert picks[..|diverse|] == diverse;
    assert TwoPasses(rules, limit, picks, |diverse|, first, second);
  }

  // ----------------------------------------------------------------- when authors are reused

  /** Every row's item has one author. */
  ghost predicate OneAuthor(rules: seq<seq<Candidate>>) {
    forall q, i, r, j | 0 <= q < |rules| && 0 <= i < |rules[q]| && 0 <= r < |rules| && 0 <= j < |rules[r]| ::
      rules[q][i].item == rules[r][j].item ==> rules[q][i].agent == rules[r][j].agent
  }

  /** The rows of queries that list items together with the author column of the item table. */
  function FromTable(items: seq<seq<int>>, authorOf: int -> int): (r: seq<seq<Candidate>>)
    ensures |r| == |items|
    ensures forall q | 0 <= q < |items| ::
              |r[q]| == |items[q]| && forall i | 0 <= i < |items[q]| ::
                  r[q][i] == Candidate(items[q][i], authorOf(items[q][i]))
  {
    seq(|items|, q requires 0 <= q < |items| =>
      seq(|items[q]|, i requires 0 <= i < |items[q]| => Candidate(items[q][i], authorOf(items[q][i]))))
  }

  lemma ReuseWithOneAuthor(rules: seq<seq<Candidate>>, limit: int, picks: seq<Pick>, split: nat, r: nat, p: nat)
    requires Selection(rules, limit, picks, split) && split < |picks| && OneAuthor(rules)
    requires r < |rules| && p < |rules[r]| && ValidRow(rules[r][p])
    ensures rules[r][p].agent in Authors(picks[..split])
  {
    var diverse := picks[..split];
    var row := rules[r][p];
    assert Skipped(row, Items(diverse), Authors(diverse), true);
    if row.item in Items(diverse) {
      var pick :| pick in diverse && pick.row.item == row.item;
      var k :| 0 <= k < |diverse| && diverse[k] == pick;
      assert picks[k] == pick;
      var j :| 0 <= j < |rules[pick.rule]| && rules[pick.rule][j] == pick.row;
      assert pick.row.agent in Authors(diverse);
    }
  }

  /**
   Whatever items the queries list, an author is used again only when the author of every valid
   candidate has already been chosen: each row carries the one author its item has in the table.
   */
  lemma ReuseOnlyWhenNeeded(items: seq<seq<int>>, authorOf: int -> int, limit: int, picks: seq<Pick>, split: nat,
                            r: nat, p: nat)
    requires Selection(FromTable(items, authorOf), limit, picks, split) && split < |picks|
    requires r < |items| && p < |items[r]| && items[r][p] > 0 && authorOf(items[r][p]) > 0
    ensures authorOf(items[r][p]) in Authors(picks[..split])
  {
    ReuseWithOneAuthor(FromTable(items, authorOf), limit, picks, split, r, p);
  }

  /** One item listed under two authors, and another item of the first author. */
  const TWO_AUTHORS: seq<seq<Candidate>> := [[Candidate(1, 7)], [Candidate(1, 8)], [Candidate(2, 7)]]

  lemma PicksOfTwo(picks: seq<Pick>, i: nat)
    requires Picks(TWO_AUTHORS, picks) && i < |picks|
    ensures picks[i] == Pick(0, Candidate(1, 7)) || picks[i] == Pick(1, Candidate(1, 8))
        || picks[i] == Pick(2, Candidate(2, 7))
  {
    assert picks[i].row in TWO_AUTHORS[picks[i].rule];
  }

  /** The first turn of a pass over these rules belongs to the first rule. */
  lemma FirstTurnOfTwo(picks: seq<Pick>, turns: seq<Turn>)
    requires Picks(TWO_AUTHORS, picks) && picks != [] && RoundRobin(picks, 0, turns)
    requires NoneMissed(TWO_AUTHORS, picks, 0, turns, true)
    ensures picks[0] == Pick(0, Candidate(1, 7))
  {
    var u := Turn(0, 0);
    assert MissedOk(TWO_AUTHORS, picks[..0], turns, turns[0], true);
    assert !Skipped(TWO_AUTHORS[0][0], Items(picks[..0]), Authors(picks[..0]), true);
    assert turns[0] == u || Earlier(u, turns[0]);
    assert turns[0] in turns && u in turns;
    var k :| 0 <= k < |turns| && turns[k] == u;
    FirstIsEarliest(turns, k);
    PicksOfTwo(picks, 0);
  }

  lemma FirstIsEarliest(turns: seq<Turn>, k: nat)
    requires InOrder(turns) && k < |turns|
    ensures turns[0] == turns[k] || Earlier(turns[0], turns[k])
  {
  }

  /**
   Were an item listed under two authors, an author could be reused while another is missing: every
   selection from these rules takes author 7 twice and never shows author 8.
   */
  lemma TwoAuthorsMissOne(picks: seq<Pick>, split: nat, first: seq<Turn>, second: seq<Turn>)
    requires TwoPasses(TWO_AUTHORS, 3, picks, split, first, second)
    ensures split == 1 && picks == [Pick(0, Candidate(1, 7)), Pick(2, Candidate(2, 7))]
  {
    TwoItems(picks);
    var diverse := picks[..split];
    assert picks[..0] == [] && !Skipped(TWO_AUTHORS[0][0], Items([]), Authors([]), true);
    assert !Exhausted(TWO_AUTHORS, [], true);
    FirstTurnOfTwo(diverse, first);
    assert forall i | 0 <= i < split :: diverse[i] == picks[i];
    PicksOfTwo(picks, 1);
  }

  /** Both items are picked, and nothing else can be. */
  lemma TwoItems(picks: seq<Pick>)
    requires Picks(TWO_AUTHORS, picks) && DistinctItems(picks) && (|picks| < 3 ==> Exhausted(TWO_AUTHORS, picks, false))
    ensures |picks| == 2
  {
    forall x <- Items(picks) ensures x in {1, 2} {
      var i :| 0 <= i < |picks| && picks[i].row.item == x;
      PicksOfTwo(picks, i);
    }
    SubsetSize(Items(picks), {1, 2});
    DistinctCount(picks);
    assert Skipped(TWO_AUTHORS[0][0], Items(picks), Authors(picks), false);
    assert Skipped(TWO_AUTHORS[2][0], Items(picks), Authors(picks), false);
    SubsetSize({1, 2}, Items(picks));
  }

  // ----------------------------------------------------------------- with the limit the handler uses

  /** homeWorthWatchingCandidateCount */
  method CandidateCount(rules: seq<seq<Candidate>>) returns (total: nat)
    ensures total == Total(rules)
  {
    total := 0;
    for r := 0 to |rules|
      invariant total == Total(rules[..r])
    {
      assert rules[..r + 1][..r] == rules[..r];
      total := total + |rules[r]|;
    }
    assert rules[..|rules|] == rules;
  }

  function Total(rules: seq<seq<Candidate>>): nat {
    if rules == [] then 0 else Total(rules[..|rules| - 1]) + |rules[|rules| - 1]|
  }

  ghost function RowItems(rows: seq<Candidate>): set<int> {
    set row | row in rows :: row.item
  }

  ghost function AllItems(rules: seq<seq<Candidate>>): set<int> {
    if rules == [] then {} else AllItems(rules[..|rules| - 1]) + RowItems(rules[|rules| - 1])
  }

  lemma {:induction false} RowItemsBound(rows: seq<Candidate>)
    ensures |RowItems(rows)| <= |rows|
  {
    if rows != [] {
      var front, last := rows[..|rows| - 1], rows[|rows| - 1];
      assert rows == front + [last];
      RowItemsBound(front);
      assert RowItems(rows) == RowItems(front) + {last.item};
    }
  }

  lemma {:induction false} AllItemsBound(rules: seq<seq<Candidate>>)
    ensures |AllItems(rules)| <= Total(rules)
    ensures forall r, p | 0 <= r < |rules| && 0 <= p < |rules[r]| :: rules[r][p].item in AllItems(rules)
  {
    if rules != [] {
      var front, last := rules[..|rules| - 1], rules[|rules| - 1];
      AllItemsBound(front);
      RowItemsBound(last);
      assert |AllItems(rules)| <= |AllItems(front)| + |RowItems(last)|;
      forall r, p | 0 <= r < |rules| && 0 <= p < |rules[r]| ensures rules[r][p].item in AllItems(rules) {
        if r < |front| { assert front[r][p].item in AllItems(front); } else { assert last[p] in last; }
      }
    }
  }

  lemma {:induction false} DistinctCount(picks: seq<Pick>)
    requires DistinctItems(picks)
    ensures |Items(picks)| == |picks|
  {
    if picks != [] {
      var front, last := picks[..|picks| - 1], picks[|picks| - 1];
      assert picks == front + [last];
      DistinctCount(front);
      Appended(front, last);
      assert last.row.item !in Items(front);
    }
  }

  lemma {:induction false} SameSize(a: set<int>, b: set<int>)
    requires a <= b && |a| >= |b|
    ensures a == b
    decreases |a|
  {
    if a != {} {
      var x := AnyMember(a);
      SameSize(a - {x}, b - {x});
      assert a == (a - {x}) + {x} && b == (b - {x}) + {x};
    }
  }

  /** With the limit the handler passes, every valid candidate item is shown. */
  lemma EveryItemShown(rules: seq<seq<Candidate>>, picks: seq<Pick>, split: nat, r: nat, p: nat)
    requires Selection(rules, Total(rules), picks, split) && r < |rules| && p < |rules[r]| && ValidRow(rules[r][p])
    ensures rules[r][p].item in Items(picks)
  {
    if |picks| < Total(rules) {
      assert Skipped(rules[r][p], Items(picks), Authors(picks), false);
    } else {
      AllItemsBound(rules);
      DistinctCount(picks);
      forall x <- Items(picks) ensures x in AllItems(rules) {
        var pick :| pick in picks && pick.row.item == x;
        var k :| 0 <= k < |picks| && picks[k] == pick;
        var j :| 0 <= j < |rules[pick.rule]| && rules[pick.rule][j] == pick.row;
      }
      SameSize(Items(picks), AllItems(rules));
    }
  }
}
