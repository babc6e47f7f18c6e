/**
 compute_advantage_for_multi_trajectories and the session selection of _validate: each session is scored by
 its last output, and all its rows get that score.
 */
module SessionScores {
  import opened TrajectoryKeys
  import opened Wrappers

  ghost predicate Parsed(keys: seq<string>, rows: seq<Row>) {
    |rows| == |keys| && forall i :: 0 <= i < |keys| ==> ParseKey(keys[i]) == Some(rows[i])
  }

  /** Row f carries the greatest index of its session, and is the first row that does. */
  ghost predicate IsFinal(rows: seq<Row>, f: nat) {
    && f < |rows|
    && forall j :: 0 <= j < |rows| && rows[j].session == rows[f].session ==>
         rows[j].index < rows[f].index || (rows[j].index == rows[f].index && f <= j)
  }

  lemma OneFinalPerSession(rows: seq<Row>, f: nat, g: nat)
    requires IsFinal(rows, f) && IsFinal(rows, g) && rows[f].session == rows[g].session
    ensures f == g
  {
  }

  /** final_sessions, or session_max: for each session seen in the first n rows, its greatest index and where. */
  ghost predicate Best(rows: seq<Row>, n: nat, best: map<string, (nat, nat)>)
    requires n <= |rows|
  {
    && (forall i :: 0 <= i < n ==> rows[i].session in best)
    && (forall s :: s in best ==>
          best[s].1 < n && rows[best[s].1] == Row(s, best[s].0) && IsFinal(rows[..n], best[s].1))
  }

  function Better(best: map<string, (nat, nat)>, r: Row, n: nat): map<string, (nat, nat)> {
    if r.session !in best || best[r.session].0 < r.index then best[r.session := (r.index, n)] else best
  }

  lemma BestStep(rows: seq<Row>, n: nat, best: map<string, (nat, nat)>)
    requires n < |rows| && Best(rows, n, best)
    ensures Best(rows, n + 1, Better(best, rows[n], n))
  {
    var r, now := rows[n], rows[..n + 1];
    var best' := Better(best, r, n);
    forall s | s in best'
      ensures best'[s].1 < n + 1 && rows[best'[s].1] == Row(s, best'[s].0) && IsFinal(now, best'[s].1)
    {
      if s in best { assert IsFinal(rows[..n], best[s].1); }
      forall j | 0 <= j < n + 1 && now[j].session == s
        ensures now[j].index < best'[s].0 || (now[j].index == best'[s].0 && best'[s].1 <= j)
      {
        if j < n { assert rows[..n][j] == now[j]; }
      }
    }
  }

  datatype Selection = Selection(finalIndices: seq<nat>, rowToLocal: seq<nat>)

  /** Every row points at the final row of its own session, and each session is represented once. */
  ghost predicate Selects(rows: seq<Row>, sel: Selection) {
    && |sel.rowToLocal| == |rows|
    && (forall i :: 0 <= i < |rows| ==>
          && sel.rowToLocal[i] < |sel.finalIndices|
          && sel.finalIndices[sel.rowToLocal[i]] < |rows|
          && rows[sel.finalIndices[sel.rowToLocal[i]]].session == rows[i].session)
    && (forall a :: 0 <= a < |sel.finalIndices| ==> IsFinal(rows, sel.finalIndices[a]))
    && (forall a, b :: 0 <= a < b < |sel.finalIndices| ==> sel.finalIndices[a] != sel.finalIndices[b])
  }

  /** `key.rsplit("_", 2)` and `int(fields[2])` for every row; a key of another form fails the assert. */
  method ParseRows(keys: seq<string>) returns (r: Result<seq<Row>, string>)
    ensures r.Ok? ==> Parsed(keys, r.value)
    ensures r.Err? <==> exists i :: 0 <= i < |keys| && ParseKey(keys[i]) == None
  {
    var rows: seq<Row> := [];
    for i := 0 to |keys|
      invariant Parsed(keys[..i], rows)
    {
      var parsed := ParseKey(keys[i]);
      if parsed.None? { return Err(keys[i]); }
      rows := rows + [parsed.value];
    }
    assert keys[..|keys|] == keys;
    return Ok(rows);
  }

  ghost predicate MetBefore(rows: seq<Row>, session: string, i: nat)
    requires i <= |rows|
  {
    exists j :: 0 <= j < i && rows[j].session == session
  }

  ghost predicate AllMetBefore(rows: seq<Row>, sessions: seq<string>, i: nat)
    requires i <= |rows|
  {
    forall s :: s in sessions ==> MetBefore(rows, s, i)
  }

  /** The sessions stand in the order in which the first n rows meet them: each after those met before it. */
  ghost predicate InOrderMet(rows: seq<Row>, n: nat, sessions: seq<string>)
    requires n <= |rows|
  {
    forall b, i :: 0 <= b < |sessions| && 0 <= i < n && rows[i].session == sessions[b] ==>
                     AllMetBefore(rows, sessions[..b], i)
  }

  function SessionsOf(rows: seq<Row>, positions: seq<nat>): seq<string>
    requires forall a :: 0 <= a < |positions| ==> positions[a] < |rows|
  {
    seq(|positions|, a requires 0 <= a < |positions| => rows[positions[a]].session)
  }

  lemma AllMet(rows: seq<Row>, n: nat, best: map<string, (nat, nat)>, order: seq<string>)
    requires n <= |rows| && Best(rows, n, best) && Lists(order, best)
    ensures AllMetBefore(rows, order, n)
  {
    forall s | s in order ensures MetBefore(rows, s, n) { assert rows[best[s].1].session == s; }
  }

  lemma NextInOrder(rows: seq<Row>, n: nat, best: map<string, (nat, nat)>, order: seq<string>)
    requires n < |rows| && Best(rows, n, best) && Lists(order, best) && InOrderMet(rows, n, order)
    ensures InOrderMet(rows, n + 1, Longer(best, rows[n].session, order))
  {
    AllMet(rows, n, best, order);
    var longer := Longer(best, rows[n].session, order);
    forall b, i | 0 <= b < |longer| && 0 <= i < n + 1 && rows[i].session == longer[b]
      ensures AllMetBefore(rows, longer[..b], i)
    {
      assert longer[..b] == order[..b];
      if i < n { assert rows[i].session in best && b < |order| && order[b] == longer[b]; }
    }
  }

  /** final_sessions and its insertion order, after n rows. */
  ghost predicate Bookkeeping(rows: seq<Row>, n: nat, best: map<string, (nat, nat)>, order: seq<string>)
    requires n <= |rows|
  {
    Best(rows, n, best) && Lists(order, best) && InOrderMet(rows, n, order)
  }

  function Longer(best: map<string, (nat, nat)>, session: string, order: seq<string>): seq<string> {
    if session in best then order else order + [session]
  }

  lemma StillLists(rows: seq<Row>, n: nat, best: map<string, (nat, nat)>, order: seq<string>)
    requires n < |rows| && Lists(order, best)
    ensures Lists(Longer(best, rows[n].session, order), Better(best, rows[n], n))
  {
  }

  lemma BookkeepingStep(rows: seq<Row>, n: nat, best: map<string, (nat, nat)>, order: seq<string>)
    requires n < |rows| && Bookkeeping(rows, n, best, order)
    ensures Bookkeeping(rows, n + 1, Better(best, rows[n], n), Longer(best, rows[n].session, order))
  {
    BestStep(rows, n, best);
    StillLists(rows, n, best, order);
    NextInOrder(rows, n, best, order);
  }

  /** The bookkeeping of compute_advantage_for_multi_trajectories; `order` is the dictionary's insertion order. */
  method SelectFinalSessions(rows: seq<Row>) returns (sel: Selection)
    ensures Selects(rows, sel) && InOrderMet(rows, |rows|, SessionsOf(rows, sel.finalIndices))
  {
    var finalSessions: map<string, (nat, nat)> := map[];
    var order: seq<string> := [];
    for i := 0 to |rows|
      invariant Bookkeeping(rows, i, finalSessions, order)
    {
      BookkeepingStep(rows, i, finalSessions, order);
      var session := rows[i].session;
      if session !in finalSessions {
        order := order + [session];
        finalSessions := finalSessions[session := (rows[i].index, i)];
      } else if finalSessions[session].0 < rows[i].index {
        finalSessions := finalSessions[session := (rows[i].index, i)];
      }
    }
    sel := LocalIndices(rows, finalSessions, order);
  }

  /** The insertion order of a dictionary. */
  ghost predicate Lists(order: seq<string>, m: map<string, (nat, nat)>) {
    && (forall s :: s in order <==> s in m)
    && (forall a, b :: 0 <= a < b < |order| ==> order[a] != order[b])
  }

  /** final_indices, session_key_to_local_index and row_to_local_index. */
  method LocalIndices(rows: seq<Row>, finalSessions: map<string, (nat, nat)>, order: seq<string>)
    returns (sel: Selection)
    requires Best(rows, |rows|, finalSessions) && Lists(order, finalSessions)
    ensures Selects(rows, sel) && SessionsOf(rows, sel.finalIndices) == order
  {
    var finalIndices: seq<nat> := [];
    var toLocal: map<string, nat> := map[];
    assert rows[..|rows|] == rows;
    for a := 0 to |order|
      invariant |finalIndices| == a
      invariant forall b :: 0 <= b < a ==> order[b] in finalSessions && finalIndices[b] == finalSessions[order[b]].1
      invariant forall b :: 0 <= b < a ==> order[b] in toLocal && toLocal[order[b]] == b
    {
      assert order[a] in order;
      finalIndices := finalIndices + [finalSessions[order[a]].1];
      toLocal := toLocal[order[a] := |finalIndices| - 1];
    }
    var rowToLocal: seq<nat> := [];
    for i := 0 to |rows|
      invariant |rowToLocal| == i
      invariant forall j :: 0 <= j < i ==> rows[j].session in toLocal && rowToLocal[j] == toLocal[rows[j].session]
    {
      assert rows[i].session in order;
      rowToLocal := rowToLocal + [toLocal[rows[i].session]];
    }
    sel := Selection(finalIndices, rowToLocal);
    forall i | 0 <= i < |rows|
      ensures rowToLocal[i] < |finalIndices| && finalIndices[rowToLocal[i]] < |rows|
      ensures rows[finalIndices[rowToLocal[i]]].session == rows[i].session
    {
      assert rows[i].session in order;
      var b :| 0 <= b < |order| && order[b] == rows[i].session;
    }
  }

  /** _validate keeps the same rows: its finals are exactly the finals of the advantage computation. */
  lemma SelectionIsTheFinals(rows: seq<Row>, sel: Selection, f: nat)
    requires Selects(rows, sel)
    ensures f in sel.finalIndices <==> IsFinal(rows, f)
  {
    if IsFinal(rows, f) {
      OneFinalPerSession(rows, f, sel.finalIndices[sel.rowToLocal[f]]);
    }
  }

  // ---------------------------------------------------------------- _validate

  /** What _validate makes of a key: a key without three fields stands for itself. */
  datatype Entry = Keyed(session: string, index: nat) | Whole(session: string)

  function EntryOf(key: string): Option<Entry> {
    var fields := RSplit(key, 2);
    if |fields| != 3 then Some(Whole(key))
    else match ParseDecimal(fields[2])
         case None => None
         case Some(index) => Some(Keyed(fields[0] + "_" + fields[1], index))
  }

  function IndexOf(e: Entry): nat {
    if e.Keyed? then e.index else 0
  }

  /** Entry f is the one kept for its session: a whole key displaces all that came before it, another key those
      of smaller index. */
  ghost predicate IsKept(entries: seq<Entry>, f: nat) {
    && f < |entries|
    && (forall j :: f < j < |entries| && entries[j].session == entries[f].session ==>
          entries[j].Keyed? && entries[j].index <= IndexOf(entries[f]))
    && (entries[f].Keyed? ==>
          forall j :: 0 <= j < f && entries[j].session == entries[f].session && !Displaced(entries, j, f) ==>
            IndexOf(entries[j]) < entries[f].index)
  }

  /** A whole key came between j and f. */
  ghost predicate Displaced(entries: seq<Entry>, j: nat, f: nat)
    requires f < |entries|
  {
    exists m :: j < m < f && entries[m] == Whole(entries[f].session)
  }

  lemma OneKeptPerSession(entries: seq<Entry>, f: nat, g: nat)
    requires IsKept(entries, f) && IsKept(entries, g) && entries[f].session == entries[g].session
    ensures f == g
  {
  }

  /** session_max after the first n entries. */
  ghost predicate Kept(entries: seq<Entry>, n: nat, best: map<string, (nat, nat)>)
    requires n <= |entries|
  {
    && (forall i :: 0 <= i < n ==> entries[i].session in best)
    && (forall s :: s in best ==> KeptFor(entries, n, s, best[s]))
  }

  ghost predicate KeptFor(entries: seq<Entry>, n: nat, s: string, kept: (nat, nat))
    requires n <= |entries|
  {
    kept.1 < n && entries[kept.1].session == s && IndexOf(entries[kept.1]) == kept.0 && IsKept(entries[..n], kept.1)
  }

  /** A whole key counts as index 0: of a later key of its session, index 0 does not displace it and any other does. */
  lemma WholeCountsAsZero(session: string, index: nat)
    ensures IsKept([Whole(session), Keyed(session, index)], 0) <==> index == 0
    ensures IsKept([Whole(session), Keyed(session, index)], 1) <==> index > 0
  {
    var entries := [Whole(session), Keyed(session, index)];
    assert entries[0].Whole? && entries[1].Keyed?;
    assert !Displaced(entries, 0, 1);
  }

  lemma DisplacedPrefix(entries: seq<Entry>, n: nat, j: nat, f: nat)
    requires f < n <= |entries|
    ensures Displaced(entries[..n], j, f) <==> Displaced(entries, j, f)
  {
    if m :| j < m < f && entries[m] == Whole(entries[f].session) { assert entries[..n][m] == entries[m]; }
  }

  /** An entry of another session, or one whose index is not greater, changes nothing. */
  lemma StillKept(entries: seq<Entry>, n: nat, s: string, kept: (nat, nat))
    requires n < |entries| && KeptFor(entries, n, s, kept)
    requires entries[n].session == s ==> entries[n].Keyed? && entries[n].index <= kept.0
    ensures KeptFor(entries, n + 1, s, kept)
  {
    var now, f := entries[..n + 1], kept.1;
    forall j | 0 <= j < f && now[j].session == now[f].session && !Displaced(now, j, f)
      ensures now[f].Keyed? ==> IndexOf(now[j]) < now[f].index
    {
      DisplacedPrefix(entries, n + 1, j, f);
      DisplacedPrefix(entries, n, j, f);
      assert entries[..n][j] == now[j];
    }
    forall j | f < j < n + 1 && now[j].session == now[f].session
      ensures now[j].Keyed? && now[j].index <= IndexOf(now[f])
    {
      if j < n { assert entries[..n][j] == now[j]; }
    }
  }

  /** What displaces j before f, or is a whole key in place f, displaces it before n too. */
  lemma DisplacedLater(entries: seq<Entry>, n: nat, j: nat, f: nat)
    requires j < f < n < |entries| && entries[f].session == entries[n].session
    ensures Displaced(entries, j, f) || entries[f].Whole? ==> Displaced(entries[..n + 1], j, n)
  {
    var now := entries[..n + 1];
    if entries[f].Whole? {
      assert now[f] == Whole(now[n].session);
    } else if m :| j < m < f && entries[m] == Whole(entries[f].session) {
      assert now[m] == Whole(now[n].session);
    }
  }

  /** A whole key, the first entry of a session, or one of greater index takes over. */
  lemma TakesOver(entries: seq<Entry>, n: nat, best: map<string, (nat, nat)>)
    requires n < |entries| && Kept(entries, n, best)
    requires var e := entries[n]; e.Whole? || e.session !in best || best[e.session].0 < e.index
    ensures KeptFor(entries, n + 1, entries[n].session, (IndexOf(entries[n]), n))
  {
    var e, now := entries[n], entries[..n + 1];
    forall j | 0 <= j < n && now[j].session == e.session && !Displaced(now, j, n)
      ensures e.Keyed? ==> IndexOf(now[j]) < e.index
    {
      assert entries[j].session in best;
      var f := best[e.session].1;
      assert KeptFor(entries, n, e.session, best[e.session]);
      if f < j {
        assert entries[..n][j] == now[j];
      } else if j < f {
        DisplacedLater(entries, n, j, f);
        DisplacedPrefix(entries, n, j, f);
        assert entries[..n][j] == now[j];
      }
    }
  }

  function Updated(best: map<string, (nat, nat)>, e: Entry, pos: nat): map<string, (nat, nat)> {
    if e.Whole? || e.session !in best || e.index > best[e.session].0 then best[e.session := (IndexOf(e), pos)] else best
  }

  lemma KeptStep(entries: seq<Entry>, n: nat, best: map<string, (nat, nat)>)
    requires n < |entries| && Kept(entries, n, best)
    ensures Kept(entries, n + 1, Updated(best, entries[n], n))
  {
    var e := entries[n];
    var takes := e.Whole? || e.session !in best || best[e.session].0 < e.index;
    if takes { TakesOver(entries, n, best); }
    forall s | s in best && !(takes && s == e.session) ensures KeptFor(entries, n + 1, s, best[s]) {
      StillKept(entries, n, s, best[s]);
    }
  }

  lemma KeptAppend(entries: seq<Entry>, e: Entry, best: map<string, (nat, nat)>)
    requires Kept(entries, |entries|, best)
    ensures Kept(entries + [e], |entries| + 1, Updated(best, e, |entries|))
  {
    var n := |entries|;
    assert (entries + [e])[..n] == entries[..n];
    forall s | s in best ensures KeptFor(entries + [e], n, s, best[s]) {
      assert KeptFor(entries, n, s, best[s]);
    }
    KeptStep(entries + [e], n, best);
  }

  ghost predicate AllReadable(keys: seq<string>) {
    forall i :: 0 <= i < |keys| ==> EntryOf(keys[i]).Some?
  }

  function EntriesOf(keys: seq<string>): seq<Entry>
    requires AllReadable(keys)
  {
    seq(|keys|, i requires 0 <= i < |keys| => EntryOf(keys[i]).value)
  }

  /** final_indices of _validate: the positions in session_max, sorted; an index that is no number raises. */
  method ValidationFinals(keys: seq<string>) returns (r: Result<seq<nat>, string>)
    ensures r.Ok? <==> AllReadable(keys)
    ensures r.Ok? ==>
              && (forall f: nat :: f in r.value <==> IsKept(EntriesOf(keys), f))
              && (forall a, b :: 0 <= a < b < |r.value| ==> r.value[a] < r.value[b])
  {
    var sessionMax: map<string, (nat, nat)> := map[];
    var entries: seq<Entry> := [];
    for pos := 0 to |keys|
      invariant |entries| == pos && forall i :: 0 <= i < pos ==> EntryOf(keys[i]) == Some(entries[i])
      invariant Kept(entries, pos, sessionMax)
    {
      var entry := EntryOf(keys[pos]);
      if entry.None? { return Err(keys[pos]); }
      var e := entry.value;
      KeptAppend(entries, e, sessionMax);
      entries := entries + [e];
      if e.Keyed? {
        if e.session !in sessionMax || e.index > sessionMax[e.session].0 {
          sessionMax := sessionMax[e.session := (e.index, pos)];
        }
      } else {
        sessionMax := sessionMax[e.session := (0, pos)];
      }
    }
    assert entries == EntriesOf(keys);
    var finalIndices := SortedPositions(entries, sessionMax);
    return Ok(finalIndices);
  }

  /** The positions of session_max in increasing order. */
  method SortedPositions(entries: seq<Entry>, sessionMax: map<string, (nat, nat)>) returns (positions: seq<nat>)
    requires Kept(entries, |entries|, sessionMax)
    ensures forall f: nat :: f in positions <==> IsKept(entries, f)
    ensures forall a, b :: 0 <= a < b < |positions| ==> positions[a] < positions[b]
  {
    positions := [];
    for pos := 0 to |entries|
      invariant forall f: nat :: f in positions <==> f < pos && IsKept(entries, f)
      invariant forall a, b :: 0 <= a < b < |positions| ==> positions[a] < positions[b]
    {
      var s := entries[pos].session;
      assert KeptFor(entries, |entries|, s, sessionMax[s]) && entries[..|entries|] == entries;
      if IsKept(entries, pos) { OneKeptPerSession(entries, pos, sessionMax[s].1); }
      if sessionMax[s].1 == pos {
        forall a | 0 <= a < |positions| ensures positions[a] < pos { assert positions[a] in positions; }
        positions := positions + [pos];
      }
    }
  }

  /** On keys that compute_advantage_for_multi_trajectories accepts, _validate keeps the same rows: the finals. */
  lemma ValidationKeepsTheFinals(keys: seq<string>, rows: seq<Row>, f: nat)
    requires Parsed(keys, rows)
    ensures AllReadable(keys) && (IsKept(EntriesOf(keys), f) <==> IsFinal(rows, f))
  {
    assert forall i :: 0 <= i < |keys| ==> EntryOf(keys[i]) == Some(Keyed(rows[i].session, rows[i].index));
    var entries := EntriesOf(keys);
    assert forall i :: 0 <= i < |keys| ==> entries[i] == Keyed(rows[i].session, rows[i].index);
    assert f < |keys| ==> forall j: nat :: !Displaced(entries, j, f);
  }

  // ---------------------------------------------------------------- scores

  type Matrix = seq<seq<real>>

  /** mask.argmax: the first position of the greatest value. */
  function ArgMax(xs: seq<real>): (k: nat)
    requires xs != []
    ensures k < |xs|
    ensures forall j :: 0 <= j < |xs| ==> xs[j] <= xs[k] && (xs[j] == xs[k] ==> k <= j)
  {
    if |xs| == 1 then 0
    else
      var k := ArgMax(xs[..|xs| - 1]);
      if xs[k] < xs[|xs| - 1] then |xs| - 1 else k
  }

  function Scale(score: real, mask: seq<real>): seq<real> {
    seq(|mask|, t requires 0 <= t < |mask| => score * mask[t])
  }

  /** data.batch["advantages"], from the advantages of the final rows and the masks of all rows. */
  function Scatter(sel: Selection, finalAdvantages: Matrix, masks: Matrix): Matrix
    requires |sel.rowToLocal| == |masks| && |finalAdvantages| == |sel.finalIndices|
    requires forall i :: 0 <= i < |masks| ==> sel.rowToLocal[i] < |sel.finalIndices| && masks[i] != []
    requires forall a :: 0 <= a < |sel.finalIndices| ==>
               sel.finalIndices[a] < |masks| && |finalAdvantages[a]| == |masks[sel.finalIndices[a]]|
  {
    seq(|masks|, i requires 0 <= i < |masks| =>
      var a := sel.rowToLocal[i];
      Scale(finalAdvantages[a][ArgMax(masks[sel.finalIndices[a]])], masks[i]))
  }

  ghost predicate IsMask(mask: seq<real>) {
    mask != [] && forall t :: 0 <= t < |mask| ==> mask[t] == 0.0 || mask[t] == 1.0
  }

  /** What GRPO computes for a row: one score wherever the mask is set. */
  ghost predicate OutcomeAdvantages(sel: Selection, scores: seq<real>, finalAdvantages: Matrix, masks: Matrix) {
    && |scores| == |finalAdvantages| == |sel.finalIndices|
    && forall a :: 0 <= a < |scores| ==>
         sel.finalIndices[a] < |masks| && finalAdvantages[a] == Scale(scores[a], masks[sel.finalIndices[a]])
  }

  ghost predicate IsSet(mask: seq<real>) {
    exists t :: 0 <= t < |mask| && mask[t] == 1.0
  }

  /** The score read back at the first set position of the final row's mask, or 0 from a mask that is never set. */
  ghost function SessionScore(score: real, finalMask: seq<real>): real {
    if IsSet(finalMask) then score else 0.0
  }

  lemma SameScaleIff(x: real, y: real, mask: seq<real>)
    requires IsMask(mask)
    ensures Scale(x, mask) == Scale(y, mask) <==> x == y || !IsSet(mask)
  {
    if t :| 0 <= t < |mask| && mask[t] == 1.0 {
      assert Scale(x, mask)[t] == x && Scale(y, mask)[t] == y;
    } else {
      forall t | 0 <= t < |mask| ensures Scale(x, mask)[t] == 0.0 == Scale(y, mask)[t] { assert mask[t] == 0.0; }
      assert Scale(x, mask) == Scale(y, mask);
    }
  }

  lemma ScoreReadBack(score: real, mask: seq<real>)
    requires IsMask(mask)
    ensures Scale(score, mask)[ArgMax(mask)] == SessionScore(score, mask)
    ensures Scale(SessionScore(score, mask), mask) == Scale(score, mask)
  {
    SameScaleIff(SessionScore(score, mask), score, mask);
    if t :| 0 <= t < |mask| && mask[t] == 1.0 {
      assert mask[ArgMax(mask)] == 1.0;
    } else {
      assert mask[ArgMax(mask)] == 0.0;
    }
  }

  /** Every row of a session gets the score of the session's final row, under its own mask; on the final
      rows themselves the scatter gives back what GRPO computed. */
  lemma SessionsShareOneScore(rows: seq<Row>, sel: Selection, scores: seq<real>, finalAdvantages: Matrix, masks: Matrix)
    requires Selects(rows, sel) && |masks| == |rows|
    requires forall i :: 0 <= i < |masks| ==> masks[i] != [] && IsMask(masks[i])
    requires OutcomeAdvantages(sel, scores, finalAdvantages, masks)
    ensures var out := Scatter(sel, finalAdvantages, masks);
            && |out| == |rows|
            && (forall i :: 0 <= i < |rows| ==>
                  var a := sel.rowToLocal[i];
                  out[i] == Scale(SessionScore(scores[a], masks[sel.finalIndices[a]]), masks[i]))
            && (forall i, j :: 0 <= i < |rows| && 0 <= j < |rows| && rows[i].session == rows[j].session ==>
                  sel.rowToLocal[i] == sel.rowToLocal[j])
            && (forall a :: 0 <= a < |sel.finalIndices| ==> out[sel.finalIndices[a]] == finalAdvantages[a])
  {
    forall a | 0 <= a < |scores|
      ensures finalAdvantages[a][ArgMax(masks[sel.finalIndices[a]])] ==
              SessionScore(scores[a], masks[sel.finalIndices[a]])
      ensures Scale(SessionScore(scores[a], masks[sel.finalIndices[a]]), masks[sel.finalIndices[a]]) ==
              finalAdvantages[a]
    {
      ScoreReadBack(scores[a], masks[sel.finalIndices[a]]);
    }
    forall i, j | 0 <= i < |rows| && 0 <= j < |rows| && rows[i].session == rows[j].session
      ensures sel.rowToLocal[i] == sel.rowToLocal[j]
    {
      OneFinalPerSession(rows, sel.finalIndices[sel.rowToLocal[i]], sel.finalIndices[sel.rowToLocal[j]]);
    }
    forall a | 0 <= a < |sel.finalIndices| ensures sel.rowToLocal[sel.finalIndices[a]] == a {
      OneFinalPerSession(rows, sel.finalIndices[a], sel.finalIndices[sel.rowToLocal[sel.finalIndices[a]]]);
    }
  }

  /** The rows of a session get the score that GRPO gave it, each under its own mask, exactly when the final row's
      mask is set somewhere, the score is 0, or no row's mask is set at all. */
  lemma SessionKeepsItsScoreIff(rows: seq<Row>, sel: Selection, scores: seq<real>, finalAdvantages: Matrix,
                                masks: Matrix, a: nat)
    requires Selects(rows, sel) && |masks| == |rows|
    requires forall i :: 0 <= i < |masks| ==> masks[i] != [] && IsMask(masks[i])
    requires OutcomeAdvantages(sel, scores, finalAdvantages, masks) && a < |scores|
    ensures (forall i :: 0 <= i < |rows| && sel.rowToLocal[i] == a ==>
               Scatter(sel, finalAdvantages, masks)[i] == Scale(scores[a], masks[i]))
       <==> || IsSet(masks[sel.finalIndices[a]]) || scores[a] == 0.0
            || forall i :: 0 <= i < |rows| && sel.rowToLocal[i] == a ==> !IsSet(masks[i])
  {
    SessionsShareOneScore(rows, sel, scores, finalAdvantages, masks);
    forall i | 0 <= i < |rows| && sel.rowToLocal[i] == a
      ensures Scatter(sel, finalAdvantages, masks)[i] == Scale(scores[a], masks[i])
         <==> IsSet(masks[sel.finalIndices[a]]) || scores[a] == 0.0 || !IsSet(masks[i])
    {
      SameScaleIff(SessionScore(scores[a], masks[sel.finalIndices[a]]), scores[a], masks[i]);
    }
  }

  /** A session of two outputs, the last of them without a response token: the first gets 0 and not its score. */
  lemma LostScore(score: real)
    requires score != 0.0
    ensures var rows, sel := [Row("s", 0), Row("s", 1)], Selection([1], [0, 0]);
            var masks := [[1.0], [0.0]];
            && Selects(rows, sel) && OutcomeAdvantages(sel, [score], [Scale(score, [0.0])], masks)
            && Scatter(sel, [Scale(score, [0.0])], masks) == [[0.0], [0.0]] && Scale(score, masks[0]) == [score]
  {
    var rows, sel, masks := [Row("s", 0), Row("s", 1)], Selection([1], [0, 0]), [[1.0], [0.0]];
    var finalAdvantages := [Scale(score, [0.0])];
    assert Selects(rows, sel);
    assert finalAdvantages[0][ArgMax(masks[1])] == 0.0;
    assert Scale(0.0, masks[0]) == [0.0] && Scale(0.0, masks[1]) == [0.0];
    assert Scatter(sel, finalAdvantages, masks) == [Scale(0.0, masks[0]), Scale(0.0, masks[1])];
  }
}
