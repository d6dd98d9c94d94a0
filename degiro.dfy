/**
 * The checks of src/stockwatch/use_cases/degiro.py that do not touch the
 * network: the session-id and account-id validators and the progress
 * percentage of the scrape thread, as a function of the thread's fields.
 */
module Degiro {
  import opened Wrappers
  import opened Calendar

  // ---- is_valid_sessionid: the regular expression [a-zA-Z0-9]{32}\.\w+ in ASCII mode ----

  const SESSION_KEY_LENGTH: nat := 32

  predicate IsAsciiAlnum(c: char)
  {
    ('a' <= c <= 'z') || ('A' <= c <= 'Z') || ('0' <= c <= '9')
  }

  /** `\w` under `re.ASCII`. */
  predicate IsWordChar(c: char)
  {
    IsAsciiAlnum(c) || c == '_'
  }

  /** `\w+` matching the whole of `s`. */
  predicate MatchWords(s: string)
    decreases |s|
  {
    s != [] && IsWordChar(s[0]) && (|s| == 1 || MatchWords(s[1..]))
  }

  /** `[a-zA-Z0-9]{count}\.\w+` matching the whole of `s`, one character at a time. */
  predicate MatchSession(s: string, count: nat)
    decreases |s|
  {
    if count > 0 then s != [] && IsAsciiAlnum(s[0]) && MatchSession(s[1..], count - 1)
    else s != [] && s[0] == '.' && MatchWords(s[1..])
  }

  /** `is_valid_sessionid`: the pattern's full match; a valid id is a 32-character key, a dot and more. */
  function IsValidSessionId(sessionId: string): (r: bool)
    ensures r ==> |sessionId| >= 34 && sessionId[32] == '.'
    ensures r ==> forall i :: 0 <= i < 32 ==> IsAsciiAlnum(sessionId[i])
  {
    MatchSessionShape(sessionId, SESSION_KEY_LENGTH);
    MatchSession(sessionId, SESSION_KEY_LENGTH)
  }

  lemma {:induction false} MatchWordsShape(s: string)
    ensures MatchWords(s) <==> s != [] && forall i :: 0 <= i < |s| ==> IsWordChar(s[i])
    decreases |s|
  {
    if |s| > 1 {
      MatchWordsShape(s[1..]);
      assert forall i :: 1 <= i < |s| ==> s[i] == s[1..][i - 1];
    }
  }

  lemma {:induction false} MatchSessionShape(s: string, count: nat)
    ensures MatchSession(s, count) <==>
      (|s| >= count + 2 && (forall i :: 0 <= i < count ==> IsAsciiAlnum(s[i])) && s[count] == '.'
        && forall i :: count < i < |s| ==> IsWordChar(s[i]))
    decreases count
  {
    if count > 0 {
      if s != [] {
        MatchSessionShape(s[1..], count - 1);
        assert forall i :: 1 <= i < |s| ==> s[i] == s[1..][i - 1];
      }
    } else if s != [] {
      MatchWordsShape(s[1..]);
      assert forall i :: 0 < i < |s| ==> s[i] == s[1..][i - 1];
    }
  }

  /** A valid session id is 32 letters or digits, a dot and one or more word characters, so at least 34 long. */
  lemma SessionIdShape(sessionId: string)
    ensures IsValidSessionId(sessionId) <==>
      (|sessionId| >= 34 && (forall i :: 0 <= i < 32 ==> IsAsciiAlnum(sessionId[i])) && sessionId[32] == '.'
        && forall i :: 32 < i < |sessionId| ==> IsWordChar(sessionId[i]))
  {
    MatchSessionShape(sessionId, SESSION_KEY_LENGTH);
  }

  /** A key of 32 letters or digits, a dot and a server name of word characters make a valid id. */
  lemma SessionIdFromParts(key: string, server: string)
    requires |key| == 32 && forall i :: 0 <= i < |key| ==> IsAsciiAlnum(key[i])
    requires server != [] && forall i :: 0 <= i < |server| ==> IsWordChar(server[i])
    ensures IsValidSessionId(key + "." + server)
  {
    var s := key + "." + server;
    SessionIdShape(s);
    assert forall i :: 0 <= i < 32 ==> s[i] == key[i];
    assert forall i :: 32 < i < |s| ==> s[i] == server[i - 33];
  }

  /** Ids the pattern refuses: a short key, and a key without the server part. */
  lemma SessionIdOracles(key: string)
    requires |key| == 32
    ensures !IsValidSessionId("abc.prod")
    ensures !IsValidSessionId(key + ".")
    ensures !IsValidSessionId(key + "_prod")
  {
    SessionIdShape("abc.prod");
    SessionIdShape(key + ".");
    SessionIdShape(key + "_prod");
    assert (key + "_prod")[32] == '_';
  }

  // ---- is_valid_accountid ----

  /** `is_valid_accountid`: an account id is valid iff it is positive. */
  function IsValidAccountId(accountId: int): (r: bool)
    ensures r <==> accountId > 0
  {
    accountId > 0
  }

  // ---- ScrapeThread.progress ----

  datatype ProgressError = ZeroDivisionError

  /** `int(x)` on a float: truncation toward zero. */
  function Truncate(x: real): (n: int)
    ensures x >= 0.0 ==> n as real <= x < n as real + 1.0
    ensures x < 0.0 ==> n as real - 1.0 < x <= n as real
  {
    if x >= 0.0 then x.Floor else -((-x).Floor)
  }

  /**
   * `progress`: 0 while no thread was created, otherwise the elapsed part of the
   * date range as a truncated percentage; the division raises when the range is empty.
   */
  function Progress(created: bool, currentDate: Date, startDate: Date, endDate: Date): (r: Result<int, ProgressError>)
    ensures !created ==> r == Success(0)
    ensures r.Failure? <==> created && startDate == endDate
  {
    if !created then Success(0)
    else
      var part := currentDate - startDate;
      var whole := endDate - startDate;
      if whole == 0 then Failure(ZeroDivisionError)
      else Success(Truncate(part as real / whole as real * 100.0))
  }

  /** Within the range the progress is a percentage, 0 at the start and 100 exactly at the end. */
  lemma ProgressRange(currentDate: Date, startDate: Date, endDate: Date)
    requires startDate < endDate && startDate <= currentDate <= endDate
    ensures var p := Progress(true, currentDate, startDate, endDate).value;
      0 <= p <= 100 && (currentDate == startDate ==> p == 0) && (p == 100 <==> currentDate == endDate)
  {
    var part := (currentDate - startDate) as real;
    var whole := (endDate - startDate) as real;
    var x := part / whole * 100.0;
    assert 0.0 <= part / whole <= 1.0;
    if currentDate < endDate {
      assert part <= whole - 1.0;
      assert part / whole < 1.0;
      assert x < 100.0;
    } else {
      assert part / whole == 1.0;
    }
  }

  lemma TruncateMonotone(x1: real, x2: real)
    requires x1 <= x2
    ensures Truncate(x1) <= Truncate(x2)
  {
    if x1 >= 0.0 {
      assert Truncate(x1) as real <= x2 < Truncate(x2) as real + 1.0;
    } else if x2 < 0.0 {
      assert Truncate(x1) as real - 1.0 < x2 <= Truncate(x2) as real;
    }
  }

  /** The progress never goes down as the current date advances. */
  lemma ProgressMonotone(d1: Date, d2: Date, startDate: Date, endDate: Date)
    requires startDate < endDate && d1 <= d2
    ensures Progress(true, d1, startDate, endDate).value <= Progress(true, d2, startDate, endDate).value
  {
    var whole := (endDate - startDate) as real;
    var q1 := (d1 - startDate) as real / whole;
    var q2 := (d2 - startDate) as real / whole;
    assert q1 <= q2;
    TruncateMonotone(q1 * 100.0, q2 * 100.0);
  }
}
