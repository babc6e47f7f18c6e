/**
 verl/trainer/main_ppo_sync.py: keys of agent loop outputs, "{uid}_{session_id}_{index}", and what the
 trainer reads back out of them.
 */
module TrajectoryKeys {
  import opened Wrappers

  const DIGITS := "0123456789"

  function Decimal(n: nat): (s: string)
    ensures s != "" && forall i :: 0 <= i < |s| ==> s[i] in DIGITS
  {
    if n < 10 then [DIGITS[n]] else Decimal(n / 10) + [DIGITS[n % 10]]
  }

  function DigitValue(c: char): Option<nat> {
    if '0' <= c <= '9' then Some((c as int) - ('0' as int)) else None
  }

  /** int(s) for a string of decimal digits; anything else is refused. */
  function ParseDecimal(s: string): Option<nat> {
    if s == "" then None
    else
      match DigitValue(s[|s| - 1])
      case None => None
      case Some(d) =>
        if |s| == 1 then Some(d)
        else match ParseDecimal(s[..|s| - 1])
             case None => None
             case Some(n) => Some(10 * n + d)
  }

  lemma DigitRoundTrip(d: nat)
    requires d < 10
    ensures DigitValue(DIGITS[d]) == Some(d)
  {
  }

  lemma ParseNextDigit(s: string, d: nat)
    requires s != "" && d < 10
    ensures ParseDecimal(s + [DIGITS[d]]) ==
            match ParseDecimal(s) case None => None case Some(n) => Some(10 * n + d)
  {
    DigitRoundTrip(d);
    assert (s + [DIGITS[d]])[..|s|] == s;
  }

  lemma {:induction false} DecimalRoundTrip(n: nat)
    ensures ParseDecimal(Decimal(n)) == Some(n)
  {
    if n < 10 {
      DigitRoundTrip(n);
    } else {
      DecimalRoundTrip(n / 10);
      ParseNextDigit(Decimal(n / 10), n % 10);
    }
  }

  /** A string of digits is a number, and nothing else is; leading zeros do not count. */
  lemma {:induction false} ParsesIff(s: string)
    ensures ParseDecimal(s).Some? <==> s != "" && forall i :: 0 <= i < |s| ==> '0' <= s[i] <= '9'
    ensures s != "" ==> ParseDecimal("0" + s) == ParseDecimal(s)
  {
    if s != "" {
      var init := s[..|s| - 1];
      ParsesIff(init);
      assert ("0" + s)[..|s|] == "0" + init;
      assert s == init + [s[|s| - 1]];
    }
  }

  /** f"{uid}_{session_id}_{i}" */
  function PrintKey(uid: string, session: nat, index: nat): string {
    uid + "_" + Decimal(session) + "_" + Decimal(index)
  }

  function LastUnderscore(s: string): int {
    if s == "" then -1 else if s[|s| - 1] == '_' then |s| - 1 else LastUnderscore(s[..|s| - 1])
  }

  lemma {:induction false} LastUnderscoreIs(s: string)
    ensures -1 <= LastUnderscore(s) < |s|
    ensures LastUnderscore(s) >= 0 ==> s[LastUnderscore(s)] == '_'
    ensures forall i :: LastUnderscore(s) < i < |s| ==> s[i] != '_'
  {
    if s != "" && s[|s| - 1] != '_' { LastUnderscoreIs(s[..|s| - 1]); }
  }

  /** s.rsplit("_", splits) */
  function RSplit(s: string, splits: nat): seq<string> {
    LastUnderscoreIs(s);
    var at := LastUnderscore(s);
    if splits == 0 || at < 0 then [s] else RSplit(s[..at], splits - 1) + [s[at + 1..]]
  }

  lemma RSplitOnce(front: string, back: string, splits: nat)
    requires splits > 0 && forall i :: 0 <= i < |back| ==> back[i] != '_'
    ensures RSplit(front + "_" + back, splits) == RSplit(front, splits - 1) + [back]
  {
    var s := front + "_" + back;
    LastUnderscoreIs(s);
    assert s[|front|] == '_';
    forall i | |front| < i < |s| ensures s[i] != '_' { assert s[i] == back[i - |front| - 1]; }
    assert s[..|front|] == front && s[|front| + 1..] == back;
  }

  /** The fields put together again. */
  function Joined(fields: seq<string>): string {
    if fields == [] then ""
    else if |fields| == 1 then fields[0]
    else Joined(fields[..|fields| - 1]) + "_" + fields[|fields| - 1]
  }

  /** rsplit cuts at the last underscores: the fields joined are the string, only the first may have an underscore,
      and it has one only when all the splits are used. */
  lemma {:induction false} RSplitIs(s: string, splits: nat)
    ensures var fields := RSplit(s, splits);
            && 1 <= |fields| <= splits + 1 && Joined(fields) == s
            && (forall i :: 1 <= i < |fields| ==> '_' !in fields[i])
            && (|fields| <= splits ==> '_' !in fields[0])
  {
    LastUnderscoreIs(s);
    var at := LastUnderscore(s);
    if splits > 0 && at >= 0 {
      RSplitIs(s[..at], splits - 1);
      var before, last := RSplit(s[..at], splits - 1), s[at + 1..];
      assert (before + [last])[..|before|] == before;
      assert s == s[..at] + "_" + last;
      forall i | 1 <= i <= |before| ensures '_' !in (before + [last])[i] {
        if i < |before| { assert (before + [last])[i] == before[i]; }
      }
    }
  }

  datatype Row = Row(session: string, index: nat)

  /** What both readers of the key make of it: the session key and the output's index. */
  function ParseKey(key: string): Option<Row> {
    var fields := RSplit(key, 2);
    if |fields| != 3 then None
    else match ParseDecimal(fields[2])
         case None => None
         case Some(index) => Some(Row(fields[0] + "_" + fields[1], index))
  }

  function SessionKey(uid: string, session: nat): string {
    uid + "_" + Decimal(session)
  }

  lemma DecimalHasNoUnderscore(n: nat)
    ensures forall i :: 0 <= i < |Decimal(n)| ==> Decimal(n)[i] != '_'
  {
    assert forall i :: 0 <= i < |Decimal(n)| ==> Decimal(n)[i] in DIGITS;
  }

  /** Reading undoes printing for every uid, underscores and all. */
  lemma ParseUndoesPrint(uid: string, session: nat, index: nat)
    ensures RSplit(PrintKey(uid, session, index), 2) == [uid, Decimal(session), Decimal(index)]
    ensures ParseKey(PrintKey(uid, session, index)) == Some(Row(SessionKey(uid, session), index))
  {
    DecimalHasNoUnderscore(session);
    DecimalHasNoUnderscore(index);
    RSplitOnce(uid + "_" + Decimal(session), Decimal(index), 2);
    RSplitOnce(uid, Decimal(session), 1);
    assert RSplit(uid, 0) == [uid];
    DecimalRoundTrip(index);
  }

  /** What is read out of any key: its session key is all before the last underscore, its index the number after
      that. A key with fewer than two underscores, or with no number at the end, is refused. */
  lemma ParseKeyIs(front: string, session: string, index: string)
    requires '_' !in session && '_' !in index
    ensures ParseKey(front + "_" + session + "_" + index) ==
            match ParseDecimal(index) case None => None case Some(i) => Some(Row(front + "_" + session, i))
    ensures ParseKey(session).None? && ParseKey(session + "_" + index).None?
  {
    RSplitOnce(front + "_" + session, index, 2);
    RSplitOnce(front, session, 1);
    assert RSplit(front, 0) == [front];
    RSplitOnce(session, index, 2);
    LastUnderscoreIs(session);
    assert RSplit(session, 1) == [session] && RSplit(session, 2) == [session];
  }

  /** Different outputs have different keys, and different sessions different session keys. */
  lemma KeysAreInjective(uid: string, session: nat, index: nat, uid': string, session': nat, index': nat)
    ensures PrintKey(uid, session, index) == PrintKey(uid', session', index') ==>
              uid == uid' && session == session' && index == index'
    ensures SessionKey(uid, session) == SessionKey(uid', session') ==> uid == uid' && session == session'
  {
    ParseUndoesPrint(uid, session, index);
    ParseUndoesPrint(uid', session', index');
    DecimalRoundTrip(session);
    DecimalRoundTrip(session');
    DecimalHasNoUnderscore(session);
    DecimalHasNoUnderscore(session');
    RSplitOnce(uid, Decimal(session), 1);
    RSplitOnce(uid', Decimal(session'), 1);
    var a, b := RSplit(SessionKey(uid, session), 1), RSplit(SessionKey(uid', session'), 1);
    assert a == [uid, Decimal(session)] && b == [uid', Decimal(session')];
    if SessionKey(uid, session) == SessionKey(uid', session') {
      assert a[0] == b[0] && a[1] == b[1];
    }
    var k, k' := RSplit(PrintKey(uid, session, index), 2), RSplit(PrintKey(uid', session', index'), 2);
    if PrintKey(uid, session, index) == PrintKey(uid', session', index') {
      assert k[0] == k'[0] && k[1] == k'[1];
    }
  }
}
