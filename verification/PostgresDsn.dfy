/** Decimal text as fmt's %d prints it, and Go's 64-bit integers. */
module Decimal {

  const MAX_INT64 := 0x7FFF_FFFF_FFFF_FFFF

  type Int64 = x: int | -MAX_INT64 - 1 <= x <= MAX_INT64

  /** Two's complement wrap-around of a mathematical result. */
  function Wrap(x: int): Int64 {
    (x + MAX_INT64 + 1) % (2 * (MAX_INT64 + 1)) - MAX_INT64 - 1
  }

  predicate IsDigit(c: char) {
    '0' <= c <= '9'
  }

  function Digits(n: nat): (s: string)
    ensures s != [] && forall i :: 0 <= i < |s| ==> IsDigit(s[i])
  {
    var last := ['0' + (n % 10) as char];
    if n < 10 then last else Digits(n / 10) + last
  }

  function Format(n: int): string {
    if n < 0 then "-" + Digits(-n) else Digits(n)
  }

  function Value(s: string): int
    requires forall i :: 0 <= i < |s| ==> IsDigit(s[i])
  {
    if s == [] then 0 else 10 * Value(s[..|s| - 1]) + (s[|s| - 1] as int - '0' as int)
  }

  predicate IsNumeral(s: string) {
    s != [] && forall i :: (if s[0] == '-' then 1 else 0) <= i < |s| ==> IsDigit(s[i])
  }

  /** Reading the text back: strconv.Atoi on well-formed input. */
  function Read(s: string): int
    requires IsNumeral(s)
  {
    if s[0] == '-' then -Value(s[1..]) else Value(s)
  }

  lemma {:induction false} ValueOfDigits(n: nat)
    ensures Value(Digits(n)) == n
  {
    if n >= 10 {
      ValueOfDigits(n / 10);
      assert Digits(n)[..|Digits(n)| - 1] == Digits(n / 10);
    }
  }

  /** What %d prints reads back as the same number. */
  lemma ReadFormat(n: int)
    ensures var s := Format(n);
            IsNumeral(s) && Read(s) == n
  {
    if n < 0 {
      ValueOfDigits(-n);
      assert Format(n)[1..] == Digits(-n);
    } else {
      ValueOfDigits(n);
    }
  }

  /** Multiplication by 1000 survives the round trip exactly when it does not overflow. */
  lemma ThousandFoldReadsBack(x: Int64)
    requires x > 0
    ensures Wrap(x * 1000) == x * 1000 <==> x <= 9223372036854775
  {
  }
}

/**
 The libpq keyword/value connection string format (PostgreSQL 16 documentation,
 section 34.1.1.1): the value quoting of config/config.go and the parser that has
 to undo it.
 */
module ConnInfo {
  import opened Wrappers

  type Pair = (string, string)

  /** What isspace accepts in the parser. */
  predicate IsSpace(c: char) {
    c == ' ' || c == '\t' || c == '\n' || c == '\r' || c == '\U{0B}' || c == '\U{0C}'
  }

  /** strings.ContainsAny(v, " \t\n\\'") */
  predicate Special(c: char) {
    c == ' ' || c == '\t' || c == '\n' || c == '\\' || c == '\''
  }

  predicate NeedsQuoting(v: string) {
    v == "" || exists i :: 0 <= i < |v| && Special(v[i])
  }

  /** strings.ReplaceAll for a one-character pattern. */
  function ReplaceAll(v: string, old_: char, new_: string): string {
    if v == "" then "" else (if v[0] == old_ then new_ else [v[0]]) + ReplaceAll(v[1..], old_, new_)
  }

  /** pgQuoteValue */
  function Quote(v: string): string {
    if NeedsQuoting(v) then "'" + ReplaceAll(ReplaceAll(v, '\\', "\\\\"), '\'', "\\'") + "'" else v
  }

  /** The escaping that the two replacement passes amount to. */
  function Escaped(v: string): string {
    if v == "" then "" else (if v[0] == '\\' || v[0] == '\'' then ['\\', v[0]] else [v[0]]) + Escaped(v[1..])
  }

  lemma {:induction false} ReplaceAllConcat(a: string, b: string, old_: char, new_: string)
    ensures ReplaceAll(a + b, old_, new_) == ReplaceAll(a, old_, new_) + ReplaceAll(b, old_, new_)
  {
    if a == "" {
      assert a + b == b;
    } else {
      assert (a + b)[1..] == a[1..] + b;
      ReplaceAllConcat(a[1..], b, old_, new_);
    }
  }

  lemma {:induction false} TwoPassesEscapeOnce(v: string)
    ensures ReplaceAll(ReplaceAll(v, '\\', "\\\\"), '\'', "\\'") == Escaped(v)
  {
    if v != "" {
      var head := if v[0] == '\\' then "\\\\" else [v[0]];
      ReplaceAllConcat(head, ReplaceAll(v[1..], '\\', "\\\\"), '\'', "\\'");
      TwoPassesEscapeOnce(v[1..]);
      assert ReplaceAll([v[0]], '\'', "\\'") == if v[0] == '\'' then "\\'" else [v[0]] by {
        assert [v[0]][1..] == "";
      }
      assert ReplaceAll("\\\\", '\'', "\\'") == "\\\\" by {
        assert "\\\\"[1..] == "\\" && "\\"[1..] == "";
      }
    }
  }

  // ----- The parser -----

  function SkipSpace(s: string): (r: string)
    ensures |r| <= |s|
    ensures r != "" ==> !IsSpace(r[0])
  {
    if s != "" && IsSpace(s[0]) then SkipSpace(s[1..]) else s
  }

  /** The keyword ends at an equal sign or white space. */
  function KeywordEnd(s: string): (n: nat)
    ensures n <= |s|
  {
    if s == "" || s[0] == '=' || IsSpace(s[0]) then 0 else 1 + KeywordEnd(s[1..])
  }

  /** An unquoted value ends at white space; a backslash takes the next character literally. */
  function BareValue(s: string): (r: Pair)
    ensures |r.1| <= |s|
  {
    if s == "" then ("", "")
    else if IsSpace(s[0]) then ("", s[1..])
    else if s[0] == '\\' then
      if |s| == 1 then ("", "")
      else
        var (v, rest) := BareValue(s[2..]);
        ([s[1]] + v, rest)
    else
      var (v, rest) := BareValue(s[1..]);
      ([s[0]] + v, rest)
  }

  /** A quoted value, after the opening quote, ends at the next unescaped quote. */
  function QuotedValue(s: string): (r: Option<Pair>)
    ensures r.Some? ==> |r.value.1| < |s|
  {
    if s == "" then None
    else if s[0] == '\'' then Some(("", s[1..]))
    else if s[0] == '\\' && |s| == 1 then None
    else
      var n := if s[0] == '\\' then 1 else 0;
      match QuotedValue(s[n + 1..])
      case None => None
      case Some((v, rest)) => Some(([s[n]] + v, rest))
  }

  function ParseValue(s: string): (r: Option<Pair>)
    ensures r.Some? ==> |r.value.1| <= |s|
  {
    var s := SkipSpace(s);
    if s != "" && s[0] == '\'' then QuotedValue(s[1..]) else Some(BareValue(s))
  }

  function Parse(s: string): Option<seq<Pair>>
    decreases |s|
  {
    var s := SkipSpace(s);
    if s == "" then Some([])
    else
      var n := KeywordEnd(s);
      var rest := SkipSpace(s[n..]);
      if rest == "" || rest[0] != '=' then None
      else
        match ParseValue(rest[1..])
        case None => None
        case Some((v, tail)) =>
          match Parse(tail)
          case None => None
          case Some(pairs) => Some([(s[..n], v)] + pairs)
  }

  // ----- The printer -----

  function Assignment(key: string, text: string): string {
    key + "=" + text
  }

  /** key=value settings separated by single spaces. */
  function Render(pairs: seq<Pair>): string
    decreases |pairs|, 0
  {
    if pairs == [] then ""
    else Assignment(pairs[0].0, Quote(pairs[0].1)) + Tail(pairs[1..])
  }

  function Tail(pairs: seq<Pair>): string
    decreases |pairs|, 1
  {
    if pairs == [] then "" else " " + Render(pairs)
  }

  predicate PlainKey(k: string) {
    k != "" && forall i :: 0 <= i < |k| ==> 'a' <= k[i] <= 'z' || k[i] == '_'
  }

  /** A value that the format can carry back: quoted, or free of the white space the quoting test overlooks. */
  predicate Faithful(v: string) {
    NeedsQuoting(v) || forall i :: 0 <= i < |v| ==> !IsSpace(v[i])
  }

  /** The same in literal characters: free of carriage return, vertical tab and form feed, or with a space, tab, newline, backslash or quote. */
  predicate Carried(v: string) {
    || (forall i :: 0 <= i < |v| ==> v[i] != '\r' && v[i] != '\U{0B}' && v[i] != '\U{0C}')
    || (exists i :: 0 <= i < |v| && (v[i] == ' ' || v[i] == '\t' || v[i] == '\n' || v[i] == '\\' || v[i] == '\''))
  }

  lemma FaithfulIsCarried(v: string)
    ensures Faithful(v) <==> Carried(v)
  {
  }

  lemma {:induction false} QuotedValueOfEscaped(v: string, rest: string)
    ensures QuotedValue(Escaped(v) + "'" + rest) == Some((v, rest))
  {
    var s := Escaped(v) + "'" + rest;
    if v == "" {
      assert s[1..] == rest;
    } else {
      QuotedValueOfEscaped(v[1..], rest);
      var n := if v[0] == '\\' || v[0] == '\'' then 1 else 0;
      assert s[n + 1..] == Escaped(v[1..]) + "'" + rest;
      assert [v[0]] + v[1..] == v;
    }
  }

  /** Up to its first white space, text without backslashes is read literally. */
  lemma {:induction false} BareValueReads(v: string, rest: string)
    requires forall i :: 0 <= i < |v| ==> !IsSpace(v[i]) && v[i] != '\\'
    requires rest == "" || IsSpace(rest[0])
    ensures BareValue(v + rest) == (v, if rest == "" then "" else rest[1..])
  {
    if v == "" {
      assert v + rest == rest;
    } else {
      assert (v + rest)[1..] == v[1..] + rest;
      BareValueReads(v[1..], rest);
      assert [v[0]] + v[1..] == v;
    }
  }

  lemma {:induction false} KeywordEndOfPlain(k: string, rest: string)
    requires PlainKey(k)
    ensures KeywordEnd(k + "=" + rest) == |k|
  {
    var s := k + "=" + rest;
    if |k| > 1 {
      assert s[1..] == k[1..] + "=" + rest;
      KeywordEndOfPlain(k[1..], rest);
    } else {
      assert s[1..] == "=" + rest;
    }
  }

  /** Parsing a rendered setting reduces to parsing its value. */
  lemma ParseOfSetting(k: string, text: string)
    requires PlainKey(k)
    ensures var r := ParseValue(text);
            Parse(k + "=" + text) ==
            if r.None? || Parse(r.value.1).None? then None else Some([(k, r.value.0)] + Parse(r.value.1).value)
  {
    var s := k + "=" + text;
    KeywordEndOfPlain(k, text);
    assert !IsSpace(s[0]) && s[..|k|] == k && s[|k|..] == "=" + text;
    assert ("=" + text)[1..] == text;
  }

  lemma ParseOfTail(pairs: seq<Pair>)
    ensures Parse(Tail(pairs)) == Parse(Render(pairs))
    ensures Tail(pairs) != "" ==> Parse(Tail(pairs)[1..]) == Parse(Render(pairs))
  {
    if pairs != [] {
      assert Tail(pairs)[1..] == Render(pairs);
    }
  }

  lemma QuoteText(v: string, rest: string)
    requires NeedsQuoting(v)
    ensures Quote(v) + rest == ['\''] + (Escaped(v) + "'" + rest)
  {
    TwoPassesEscapeOnce(v);
  }

  lemma ParseQuoted(s: string)
    ensures ParseValue(['\''] + s) == QuotedValue(s)
  {
    assert (['\''] + s)[1..] == s;
    assert SkipSpace(['\''] + s) == ['\''] + s;
  }

  lemma QuotedValueReads(v: string, rest: string)
    requires NeedsQuoting(v)
    ensures ParseValue(Quote(v) + rest) == Some((v, rest))
  {
    QuoteText(v, rest);
    ParseQuoted(Escaped(v) + "'" + rest);
    QuotedValueOfEscaped(v, rest);
  }

  lemma PlainValueReads(v: string, rest: string)
    requires !NeedsQuoting(v) && forall i :: 0 <= i < |v| ==> !IsSpace(v[i])
    requires rest == "" || IsSpace(rest[0])
    ensures ParseValue(Quote(v) + rest) == Some((v, if rest == "" then "" else rest[1..]))
  {
    BareValueReads(v, rest);
    assert (v + rest)[0] == v[0];
  }

  /** A faithful value is read back exactly, and parsing goes on after it. */
  lemma FaithfulValueReads(v: string, pairs: seq<Pair>)
    requires Faithful(v)
    ensures var r := ParseValue(Quote(v) + Tail(pairs));
            r.Some? && r.value.0 == v && Parse(r.value.1) == Parse(Render(pairs))
  {
    ParseOfTail(pairs);
    if NeedsQuoting(v) {
      QuotedValueReads(v, Tail(pairs));
    } else {
      PlainValueReads(v, Tail(pairs));
    }
  }

  lemma {:induction false} FirstSpace(v: string) returns (m: nat)
    requires exists i :: 0 <= i < |v| && IsSpace(v[i])
    ensures m < |v| && IsSpace(v[m]) && forall i :: 0 <= i < m ==> !IsSpace(v[i])
  {
    m := 0;
    if !IsSpace(v[0]) {
      m := FirstSpace(v[1..]);
      m := m + 1;
    }
  }

  /** White space inside an unquoted value cuts it short. */
  lemma SpaceCutsValue(v: string, m: nat, rest: string)
    requires m < |v| && IsSpace(v[m]) && (forall i :: 0 <= i < m ==> !IsSpace(v[i]))
    requires m > 0 && forall i :: 0 <= i < |v| ==> !Special(v[i])
    ensures ParseValue(v + rest).Some? && ParseValue(v + rest).value.0 == v[..m]
  {
    assert v + rest == v[..m] + (v[m..] + rest);
    assert forall i :: 0 <= i < m ==> v[..m][i] == v[i];
    BareValueReads(v[..m], v[m..] + rest);
    assert (v + rest)[0] == v[0];
  }

  /** White space the quoting test overlooks cuts an unquoted value short or swallows its beginning. */
  lemma UnfaithfulValueMisreads(v: string, pairs: seq<Pair>)
    requires !Faithful(v) && forall i :: 0 <= i < |pairs| ==> PlainKey(pairs[i].0)
    ensures ParseValue(Quote(v) + Tail(pairs)).Some?
    ensures ParseValue(Quote(v) + Tail(pairs)).value.0 != v
  {
    var m := FirstSpace(v);
    if m > 0 {
      SpaceCutsValue(v, m, Tail(pairs));
    } else {
      SkipSpaceStopsAtPlainText(v, pairs);
      var r := SkipSpace(v + Tail(pairs));
      assert r != "" ==> BareValue(r).0[0] == r[0];
    }
  }

  lemma {:induction false} SkipSpaceStopsAtPlainText(v: string, pairs: seq<Pair>)
    requires forall i :: 0 <= i < |v| ==> !Special(v[i])
    requires forall i :: 0 <= i < |pairs| ==> PlainKey(pairs[i].0)
    ensures var r := SkipSpace(v + Tail(pairs)); r != "" ==> !IsSpace(r[0]) && r[0] != '\\' && r[0] != '\''
  {
    var s := v + Tail(pairs);
    if v != "" {
      assert s[1..] == v[1..] + Tail(pairs);
      if IsSpace(v[0]) { SkipSpaceStopsAtPlainText(v[1..], pairs); }
    } else if pairs != [] {
      assert s[1..] == Render(pairs);
      assert PlainKey(pairs[0].0);
    }
  }

  /** A list of settings is read back exactly when each value is free of \r, \v and \f or has a character that gets it quoted. */
  lemma {:induction false} ParseRender(pairs: seq<Pair>)
    requires forall i :: 0 <= i < |pairs| ==> PlainKey(pairs[i].0)
    ensures Parse(Render(pairs)) == Some(pairs) <==> forall i :: 0 <= i < |pairs| ==> Carried(pairs[i].1)
    decreases |pairs|
  {
    if pairs != [] {
      var rest := pairs[1..];
      ParseRender(rest);
      assert forall i :: 0 <= i < |rest| ==> rest[i] == pairs[i + 1];
      FaithfulIsCarried(pairs[0].1);
      if Faithful(pairs[0].1) {
        ParseFaithfulFirst(pairs);
      } else {
        ParseUnfaithfulFirst(pairs);
      }
    }
  }

  lemma RenderFirst(pairs: seq<Pair>)
    requires pairs != []
    ensures Render(pairs) == pairs[0].0 + "=" + (Quote(pairs[0].1) + Tail(pairs[1..]))
  {
  }

  /** A faithful first value leaves the question to the other settings. */
  lemma ParseFaithfulFirst(pairs: seq<Pair>)
    requires pairs != [] && PlainKey(pairs[0].0) && Faithful(pairs[0].1)
    ensures Parse(Render(pairs)) == Some(pairs) <==> Parse(Render(pairs[1..])) == Some(pairs[1..])
  {
    var ((k, v), rest) := (pairs[0], pairs[1..]);
    RenderFirst(pairs);
    ParseOfSetting(k, Quote(v) + Tail(rest));
    FaithfulValueReads(v, rest);
    if Parse(Render(rest)).Some? {
      SameFirst(pairs, Parse(Render(rest)).value);
    }
  }

  lemma SameFirst(pairs: seq<Pair>, others: seq<Pair>)
    requires pairs != []
    ensures [(pairs[0].0, pairs[0].1)] + others == pairs <==> others == pairs[1..]
  {
    assert ([(pairs[0].0, pairs[0].1)] + others)[1..] == others;
  }

  lemma ParseUnfaithfulFirst(pairs: seq<Pair>)
    requires pairs != [] && (forall i :: 0 <= i < |pairs| ==> PlainKey(pairs[i].0)) && !Faithful(pairs[0].1)
    ensures Parse(Render(pairs)) != Some(pairs)
  {
    var ((k, v), rest) := (pairs[0], pairs[1..]);
    assert forall i :: 0 <= i < |rest| ==> rest[i] == pairs[i + 1];
    RenderFirst(pairs);
    ParseOfSetting(k, Quote(v) + Tail(rest));
    UnfaithfulValueMisreads(v, rest);
  }
}

/** PostgreSQL.Validate and PostgreSQL.ConnectionString of config/config.go. */
module PostgresDsn {
  import opened Decimal
  import opened ConnInfo
  import opened Wrappers

  datatype ConnPurpose = Runtime | Migration

  datatype ConfigError =
    | MissingUsername | MissingPassword | MissingHostname | MissingDatabase
    | InvalidPort | InvalidSSLMode | InvalidTimeout(name: string)

  datatype Config = Config(
    username: string, password: string, hostname: string, port: Int64, database: string, sslMode: string,
    maxOpenConns: Int64, maxIdleConns: Int64, connMaxLifetimeMins: Int64, connMaxIdleTimeSecs: Int64,
    connectTimeoutSecs: Int64, statementTimeoutSecs: Int64, lockTimeoutSecs: Int64)

  predicate IsSSLMode(m: string) {
    m == "disable" || m == "allow" || m == "prefer" || m == "require" || m == "verify-ca" || m == "verify-full"
  }

  function Or(x: Int64, fallback: Int64): Int64 {
    if x == 0 then fallback else x
  }

  function WithPort(c: Config): Config { c.(port := Or(c.port, 5432)) }

  function WithMode(c: Config): Config { c.(sslMode := if c.sslMode == "" then "prefer" else c.sslMode) }

  function WithLimits(c: Config): Config {
    c.(maxOpenConns := Or(c.maxOpenConns, 25), maxIdleConns := Or(c.maxIdleConns, 5),
       connMaxLifetimeMins := Or(c.connMaxLifetimeMins, 30), connMaxIdleTimeSecs := Or(c.connMaxIdleTimeSecs, 300),
       connectTimeoutSecs := Or(c.connectTimeoutSecs, 10),
       statementTimeoutSecs := Or(c.statementTimeoutSecs, 60),
       lockTimeoutSecs := Or(c.lockTimeoutSecs, 30))
  }

  function Timeouts(c: Config): seq<(string, Int64)> {
    [("connect_timeout_secs", c.connectTimeoutSecs),
     ("statement_timeout_secs", c.statementTimeoutSecs),
     ("lock_timeout_secs", c.lockTimeoutSecs)]
  }

  function FirstBadTimeout(ts: seq<(string, Int64)>): Option<ConfigError> {
    if ts == [] then None
    else if ts[0].1 < -1 then Some(InvalidTimeout(ts[0].0))
    else FirstBadTimeout(ts[1..])
  }

  method CheckTimeouts(ts: seq<(string, Int64)>) returns (err: Option<ConfigError>)
    ensures err == FirstBadTimeout(ts)
  {
    for i := 0 to |ts|
      invariant FirstBadTimeout(ts) == FirstBadTimeout(ts[i..])
    {
      if ts[i].1 < -1 { return Some(InvalidTimeout(ts[i].0)); }
      assert ts[i..][1..] == ts[i + 1..];
    }
    return None;
  }

  /** The configuration Validate leaves behind (defaults are filled in up to the first failing check) and its verdict. */
  function Validated(c: Config): (Config, Option<ConfigError>) {
    if c.username == "" then (c, Some(MissingUsername))
    else if c.password == "" then (c, Some(MissingPassword))
    else if c.hostname == "" then (c, Some(MissingHostname))
    else if c.database == "" then (c, Some(MissingDatabase))
    else
      var c1 := WithPort(c);
      if c1.port < 1 || c1.port > 65535 then (c1, Some(InvalidPort))
      else
        var c2 := WithMode(c1);
        if !IsSSLMode(c2.sslMode) then (c2, Some(InvalidSSLMode))
        else
          var c3 := WithLimits(c2);
          (c3, FirstBadTimeout(Timeouts(c3)))
  }

  /** Which configurations pass, said without the order of the checks. */
  predicate Acceptable(c: Config) {
    && c.username != "" && c.password != "" && c.hostname != "" && c.database != ""
    && 0 <= c.port <= 65535
    && (c.sslMode == "" || IsSSLMode(c.sslMode))
    && c.connectTimeoutSecs >= -1 && c.statementTimeoutSecs >= -1 && c.lockTimeoutSecs >= -1
  }

  lemma {:induction false} TimeoutVerdict(ts: seq<(string, Int64)>)
    ensures FirstBadTimeout(ts).None? <==> forall i :: 0 <= i < |ts| ==> ts[i].1 >= -1
  {
    if ts != [] { TimeoutVerdict(ts[1..]); }
  }

  /** Validation accepts exactly the acceptable configurations. */
  lemma ValidateAccepts(c: Config)
    ensures Validated(c).1.None? <==> Acceptable(c)
  {
    var c' := WithLimits(WithMode(WithPort(c)));
    TimeoutVerdict(Timeouts(c'));
    assert Timeouts(c')[0].1 == c'.connectTimeoutSecs && Timeouts(c')[1].1 == c'.statementTimeoutSecs;
    assert Timeouts(c')[2].1 == c'.lockTimeoutSecs;
  }

  /** The checks in the order of the source, each with its error. */
  function Checks(c: Config): seq<(bool, ConfigError)> {
    [(c.username == "", MissingUsername), (c.password == "", MissingPassword), (c.hostname == "", MissingHostname),
     (c.database == "", MissingDatabase), (c.port < 0 || c.port > 65535, InvalidPort),
     (c.sslMode != "" && !IsSSLMode(c.sslMode), InvalidSSLMode),
     (c.connectTimeoutSecs < -1, InvalidTimeout("connect_timeout_secs")),
     (c.statementTimeoutSecs < -1, InvalidTimeout("statement_timeout_secs")),
     (c.lockTimeoutSecs < -1, InvalidTimeout("lock_timeout_secs"))]
  }

  function FirstFailing(checks: seq<(bool, ConfigError)>): Option<ConfigError> {
    if checks == [] then None else if checks[0].0 then Some(checks[0].1) else FirstFailing(checks[1..])
  }

  lemma {:induction false} FirstFailingAt(checks: seq<(bool, ConfigError)>, i: nat)
    requires i <= |checks| && forall j :: 0 <= j < i ==> !checks[j].0
    ensures i < |checks| && checks[i].0 ==> FirstFailing(checks) == Some(checks[i].1)
    ensures i == |checks| ==> FirstFailing(checks) == None
  {
    if i > 0 { FirstFailingAt(checks[1..], i - 1); }
  }

  lemma TimeoutError(c: Config)
    ensures FirstBadTimeout(Timeouts(c)) ==
            if c.connectTimeoutSecs < -1 then Some(InvalidTimeout("connect_timeout_secs"))
            else if c.statementTimeoutSecs < -1 then Some(InvalidTimeout("statement_timeout_secs"))
            else if c.lockTimeoutSecs < -1 then Some(InvalidTimeout("lock_timeout_secs"))
            else None
  {
    var ts := Timeouts(c);
    var second, third := ts[1..], ts[2..];
    assert second[0] == ts[1] && second[1..] == third && third[0] == ts[2];
    assert third[1..] == ts[3..] && FirstBadTimeout(ts[3..]) == None;
    assert FirstBadTimeout(third) == if ts[2].1 < -1 then Some(InvalidTimeout(ts[2].0)) else None;
    assert FirstBadTimeout(second) == if ts[1].1 < -1 then Some(InvalidTimeout(ts[1].0)) else FirstBadTimeout(third);
  }

  /** The position of the first failing check. */
  function FailingCheck(c: Config): (i: nat)
    ensures i <= 9
  {
    if c.username == "" then 0 else if c.password == "" then 1 else if c.hostname == "" then 2 else if c.database == "" then 3
    else if c.port < 0 || c.port > 65535 then 4 else if c.sslMode != "" && !IsSSLMode(c.sslMode) then 5
    else if c.connectTimeoutSecs < -1 then 6 else if c.statementTimeoutSecs < -1 then 7
    else if c.lockTimeoutSecs < -1 then 8 else 9
  }

  /** When several checks fail, the error of the first one is reported. */
  lemma ErrorIsFirstFailing(c: Config)
    ensures Validated(c).1 == FirstFailing(Checks(c))
  {
    TimeoutError(WithLimits(WithMode(WithPort(c))));
    FirstFailingAt(Checks(c), FailingCheck(c));
  }

  /** The defaults a valid configuration ends up with; what was set stays. */
  lemma DefaultsAreFilled(c: Config)
    requires Acceptable(c)
    ensures var d := Validated(c).0;
            && d.username == c.username && d.password == c.password && d.hostname == c.hostname && d.database == c.database
            && d.port == (if c.port == 0 then 5432 else c.port)
            && d.sslMode == (if c.sslMode == "" then "prefer" else c.sslMode)
            && d.maxOpenConns == (if c.maxOpenConns == 0 then 25 else c.maxOpenConns)
            && d.maxIdleConns == (if c.maxIdleConns == 0 then 5 else c.maxIdleConns)
            && d.connMaxLifetimeMins == (if c.connMaxLifetimeMins == 0 then 30 else c.connMaxLifetimeMins)
            && d.connMaxIdleTimeSecs == (if c.connMaxIdleTimeSecs == 0 then 300 else c.connMaxIdleTimeSecs)
            && d.connectTimeoutSecs == (if c.connectTimeoutSecs == 0 then 10 else c.connectTimeoutSecs)
            && d.statementTimeoutSecs == (if c.statementTimeoutSecs == 0 then 60 else c.statementTimeoutSecs)
            && d.lockTimeoutSecs == (if c.lockTimeoutSecs == 0 then 30 else c.lockTimeoutSecs)
  {
  }

  /** Running validation again changes nothing, not even the verdict. */
  lemma ValidateIsIdempotent(c: Config)
    ensures Validated(Validated(c).0) == Validated(c)
  {
  }

  function TimeoutPair(key: string, secs: Int64, value: Int64): seq<Pair> {
    if secs > 0 then [(key, Format(value))] else []
  }

  function Identity(c: Config): seq<Pair> {
    [("host", c.hostname), ("port", Format(c.port)), ("user", c.username), ("password", c.password),
     ("dbname", c.database), ("sslmode", c.sslMode)]
  }

  function ConnectTimeout(c: Config): seq<Pair> {
    TimeoutPair("connect_timeout", c.connectTimeoutSecs, c.connectTimeoutSecs)
  }

  /** The two server-side timeouts, in milliseconds. */
  function ServerTimeouts(c: Config): seq<Pair> {
    TimeoutPair("statement_timeout", c.statementTimeoutSecs, Wrap(c.statementTimeoutSecs * 1000))
    + TimeoutPair("lock_timeout", c.lockTimeoutSecs, Wrap(c.lockTimeoutSecs * 1000))
  }

  /** The settings a connection is meant to be opened with. */
  function Settings(c: Config, purpose: ConnPurpose): seq<Pair> {
    Identity(c) + (ConnectTimeout(c) + if purpose == Migration then [] else ServerTimeouts(c))
  }

  /** What Validate guarantees of the configuration it accepts. */
  predicate Ready(c: Config) {
    Validated(c) == (c, None)
  }

  lemma ReadyMeans(c: Config)
    requires Ready(c)
    ensures Acceptable(c) && c.port >= 1 && IsSSLMode(c.sslMode)
    ensures c.connectTimeoutSecs != 0 && c.statementTimeoutSecs != 0 && c.lockTimeoutSecs != 0
  {
    ValidateAccepts(c);
  }

  predicate StringsCarried(c: Config) {
    Carried(c.hostname) && Carried(c.username) && Carried(c.password) && Carried(c.database)
  }

  lemma NumeralIsCarried(n: int)
    ensures Carried(Format(n))
  {
    ReadFormat(n);
  }

  ghost predicate AllCarried(ps: seq<Pair>) {
    forall i :: 0 <= i < |ps| ==> Carried(ps[i].1)
  }

  ghost predicate AllPlain(ps: seq<Pair>) {
    forall i :: 0 <= i < |ps| ==> PlainKey(ps[i].0)
  }

  lemma TimeoutsAreCarried(c: Config)
    ensures AllCarried(ConnectTimeout(c)) && AllCarried(ServerTimeouts(c))
    ensures AllPlain(ConnectTimeout(c)) && AllPlain(ServerTimeouts(c))
  {
    NumeralIsCarried(c.connectTimeoutSecs);
    NumeralIsCarried(Wrap(c.statementTimeoutSecs * 1000));
    NumeralIsCarried(Wrap(c.lockTimeoutSecs * 1000));
  }

  lemma IdentityKeysArePlain(c: Config)
    ensures AllPlain(Identity(c))
  {
  }

  lemma SSLModeIsCarried(m: string)
    requires IsSSLMode(m)
    ensures Carried(m)
  {
  }

  lemma SixCarried(a: Pair, b: Pair, c: Pair, d: Pair, e: Pair, f: Pair)
    ensures AllCarried([a, b, c, d, e, f]) <==>
            Carried(a.1) && Carried(b.1) && Carried(c.1) && Carried(d.1) && Carried(e.1) && Carried(f.1)
  {
    var ps := [a, b, c, d, e, f];
    if AllCarried(ps) {
      assert Carried(ps[0].1) && Carried(ps[1].1) && Carried(ps[2].1);
      assert Carried(ps[3].1) && Carried(ps[4].1) && Carried(ps[5].1);
    }
  }

  lemma IdentityIsCarried(c: Config)
    requires Ready(c)
    ensures AllCarried(Identity(c)) <==> StringsCarried(c)
    ensures AllPlain(Identity(c))
  {
    IdentityKeysArePlain(c);
    ReadyMeans(c);
    NumeralIsCarried(c.port);
    SSLModeIsCarried(c.sslMode);
    SixCarried(("host", c.hostname), ("port", Format(c.port)), ("user", c.username), ("password", c.password),
                ("dbname", c.database), ("sslmode", c.sslMode));
  }

  /**
   The connection string is read back as exactly the intended settings, in order, if
   and only if each of host, user, password and database name is free of carriage
   return, vertical tab and form feed, or contains a space, tab, newline, backslash or
   quote as well.
   */
  lemma DsnRoundTrip(c: Config, purpose: ConnPurpose)
    requires Ready(c)
    ensures Parse(Render(Settings(c, purpose))) == Some(Settings(c, purpose)) <==> StringsCarried(c)
  {
    var rest := ConnectTimeout(c) + if purpose == Migration then [] else ServerTimeouts(c);
    IdentityIsCarried(c);
    TimeoutsAreCarried(c);
    CarriedTogether(ConnectTimeout(c), if purpose == Migration then [] else ServerTimeouts(c));
    CarriedTogether(Identity(c), rest);
    ParseRender(Settings(c, purpose));
  }

  lemma CarriedTogether(a: seq<Pair>, b: seq<Pair>)
    ensures AllCarried(a + b) <==> AllCarried(a) && AllCarried(b)
    ensures AllPlain(a + b) <==> AllPlain(a) && AllPlain(b)
  {
    assert forall i :: 0 <= i < |a| ==> (a + b)[i] == a[i];
    assert forall i :: 0 <= i < |b| ==> (a + b)[|a| + i] == b[i];
  }

  /** A consumer's view of parsed settings. */
  datatype Connection = Connection(
    host: string, port: int, user: string, password: string, dbname: string, sslmode: string,
    connectTimeout: Option<int>, statementTimeout: Option<int>, lockTimeout: Option<int>)

  function Lookup(ps: seq<Pair>, key: string): Option<string> {
    if ps == [] then None else if ps[0].0 == key then Some(ps[0].1) else Lookup(ps[1..], key)
  }

  function Number(v: Option<string>): Option<int> {
    if v.Some? && IsNumeral(v.value) then Some(Read(v.value)) else None
  }

  function Text(v: Option<string>): string {
    if v.Some? then v.value else ""
  }

  function Consume(ps: seq<Pair>): Connection {
    Connection(
      Text(Lookup(ps, "host")), Number(Lookup(ps, "port")).GetOr(0), Text(Lookup(ps, "user")), Text(Lookup(ps, "password")),
      Text(Lookup(ps, "dbname")), Text(Lookup(ps, "sslmode")),
      Number(Lookup(ps, "connect_timeout")), Number(Lookup(ps, "statement_timeout")), Number(Lookup(ps, "lock_timeout")))
  }

  /** A timeout of -1 is disabled. */
  function Timeout(secs: Int64, value: int): Option<int> {
    if secs == -1 then None else Some(value)
  }

  /** What the configuration asks for; the two server-side timeouts are sent in milliseconds, for runtime connections only. */
  function Intended(c: Config, purpose: ConnPurpose): Connection {
    Connection(
      c.hostname, c.port, c.username, c.password, c.database, c.sslMode,
      Timeout(c.connectTimeoutSecs, c.connectTimeoutSecs),
      if purpose == Migration then None else Timeout(c.statementTimeoutSecs, Wrap(c.statementTimeoutSecs * 1000)),
      if purpose == Migration then None else Timeout(c.lockTimeoutSecs, Wrap(c.lockTimeoutSecs * 1000)))
  }

  lemma LookupConcat(a: seq<Pair>, b: seq<Pair>, key: string)
    ensures Lookup(a + b, key) == if Lookup(a, key).Some? then Lookup(a, key) else Lookup(b, key)
  {
    if a == [] {
      assert a + b == b;
    } else {
      assert (a + b)[1..] == a[1..] + b;
    }
  }

  lemma {:induction false} LookupAt(ps: seq<Pair>, i: nat, key: string)
    requires i <= |ps| && forall j :: 0 <= j < i ==> ps[j].0 != key
    ensures i < |ps| && ps[i].0 == key ==> Lookup(ps, key) == Some(ps[i].1)
    ensures i == |ps| ==> Lookup(ps, key) == None
  {
    if i > 0 { LookupAt(ps[1..], i - 1, key); }
  }

  lemma LookupIdentity(c: Config)
    ensures var ps := Identity(c);
            && Lookup(ps, "host") == Some(c.hostname) && Lookup(ps, "port") == Some(Format(c.port))
            && Lookup(ps, "user") == Some(c.username) && Lookup(ps, "password") == Some(c.password)
            && Lookup(ps, "dbname") == Some(c.database) && Lookup(ps, "sslmode") == Some(c.sslMode)
            && Lookup(ps, "connect_timeout") == Lookup(ps, "statement_timeout") == Lookup(ps, "lock_timeout") == None
  {
    var ps := Identity(c);
    LookupAt(ps, 0, "host");
    LookupAt(ps, 1, "port");
    LookupAt(ps, 2, "user");
    LookupAt(ps, 3, "password");
    LookupAt(ps, 4, "dbname");
    LookupAt(ps, 5, "sslmode");
    LookupAt(ps, 6, "connect_timeout");
    LookupAt(ps, 6, "statement_timeout");
    LookupAt(ps, 6, "lock_timeout");
  }

  lemma LookupTimeout(name: string, secs: Int64, value: Int64, key: string)
    ensures Lookup(TimeoutPair(name, secs, value), key) == if secs > 0 && name == key then Some(Format(value)) else None
  {
  }

  /** In the settings, an identity key is found in the identity part and a timeout key in its own part. */
  lemma LookupSettings(c: Config, purpose: ConnPurpose, key: string)
    ensures Lookup(Settings(c, purpose), key) ==
            if Lookup(Identity(c), key).Some? then Lookup(Identity(c), key)
            else if key == "connect_timeout" && c.connectTimeoutSecs > 0 then Some(Format(c.connectTimeoutSecs))
            else if purpose == Runtime && key == "statement_timeout" && c.statementTimeoutSecs > 0 then
              Some(Format(Wrap(c.statementTimeoutSecs * 1000)))
            else if purpose == Runtime && key == "lock_timeout" && c.lockTimeoutSecs > 0 then
              Some(Format(Wrap(c.lockTimeoutSecs * 1000)))
            else None
  {
    var server := if purpose == Migration then [] else ServerTimeouts(c);
    LookupConcat(Identity(c), ConnectTimeout(c) + server, key);
    LookupConcat(ConnectTimeout(c), server, key);
    LookupTimeout("connect_timeout", c.connectTimeoutSecs, c.connectTimeoutSecs, key);
    var st, lk := Wrap(c.statementTimeoutSecs * 1000), Wrap(c.lockTimeoutSecs * 1000);
    LookupConcat(TimeoutPair("statement_timeout", c.statementTimeoutSecs, st), TimeoutPair("lock_timeout", c.lockTimeoutSecs, lk), key);
    LookupTimeout("statement_timeout", c.statementTimeoutSecs, st, key);
    LookupTimeout("lock_timeout", c.lockTimeoutSecs, lk, key);
  }

  /** A consumer of the settings connects as intended: same host, port, names and mode, and a timeout exactly when it is not disabled. */
  lemma ConsumerConnectsAsIntended(c: Config, purpose: ConnPurpose)
    requires Ready(c)
    ensures Consume(Settings(c, purpose)) == Intended(c, purpose)
  {
    ReadyMeans(c);
    ConsumedIdentity(c, purpose);
    ConsumedTimeouts(c, purpose);
  }

  lemma ConsumedIdentity(c: Config, purpose: ConnPurpose)
    ensures var ps := Settings(c, purpose);
            && Text(Lookup(ps, "host")) == c.hostname && Number(Lookup(ps, "port")) == Some(c.port)
            && Text(Lookup(ps, "user")) == c.username && Text(Lookup(ps, "password")) == c.password
            && Text(Lookup(ps, "dbname")) == c.database && Text(Lookup(ps, "sslmode")) == c.sslMode
  {
    LookupIdentity(c);
    forall key ensures Lookup(Identity(c), key).Some? ==> Lookup(Settings(c, purpose), key) == Lookup(Identity(c), key) {
      LookupSettings(c, purpose, key);
    }
    ReadFormat(c.port);
  }

  lemma ConsumedTimeouts(c: Config, purpose: ConnPurpose)
    requires Ready(c)
    ensures var ps, goal := Settings(c, purpose), Intended(c, purpose);
            && Number(Lookup(ps, "connect_timeout")) == goal.connectTimeout
            && Number(Lookup(ps, "statement_timeout")) == goal.statementTimeout
            && Number(Lookup(ps, "lock_timeout")) == goal.lockTimeout
  {
    ReadyMeans(c);
    LookupIdentity(c);
    LookupSettings(c, purpose, "connect_timeout");
    LookupSettings(c, purpose, "statement_timeout");
    LookupSettings(c, purpose, "lock_timeout");
    ReadFormat(c.connectTimeoutSecs);
    ReadFormat(Wrap(c.statementTimeoutSecs * 1000));
    ReadFormat(Wrap(c.lockTimeoutSecs * 1000));
  }

  /** The server-side timeouts arrive as the configured seconds, in milliseconds, exactly when the product fits 64 bits. */
  lemma ServerTimeoutsArriveIff(c: Config)
    requires Ready(c) && c.statementTimeoutSecs > 0 && c.lockTimeoutSecs > 0
    ensures var seen := Consume(Settings(c, Runtime));
            && (seen.statementTimeout == Some(c.statementTimeoutSecs * 1000) <==> c.statementTimeoutSecs <= 9223372036854775)
            && (seen.lockTimeout == Some(c.lockTimeoutSecs * 1000) <==> c.lockTimeoutSecs <= 9223372036854775)
  {
    ConsumerConnectsAsIntended(c, Runtime);
    ThousandFoldReadsBack(c.statementTimeoutSecs);
    ThousandFoldReadsBack(c.lockTimeoutSecs);
  }

  lemma RenderConcat(a: seq<Pair>, b: seq<Pair>)
    requires a != []
    ensures Render(a + b) == Render(a) + Tail(b)
  {
    if |a| == 1 {
      assert (a + b)[1..] == b;
    } else {
      assert (a + b)[1..] == a[1..] + b;
      RenderConcat(a[1..], b);
    }
  }

  /** The migration string is the runtime string without its two server-side timeouts, and what is dropped comes last. */
  lemma MigrationDsnIsPrefix(c: Config)
    ensures Settings(c, Runtime) == Settings(c, Migration) + ServerTimeouts(c)
    ensures Render(Settings(c, Runtime)) == Render(Settings(c, Migration)) + Tail(ServerTimeouts(c))
  {
    assert Settings(c, Runtime) == Settings(c, Migration) + ServerTimeouts(c);
    RenderConcat(Settings(c, Migration), ServerTimeouts(c));
  }

  lemma AppendSetting(ps: seq<Pair>, k: string, v: string)
    requires ps != []
    ensures Render(ps + [(k, v)]) == Render(ps) + (" " + Assignment(k, Quote(v)))
  {
    RenderConcat(ps, [(k, v)]);
    assert [(k, v)][1..] == [] && Render([(k, v)]) == Assignment(k, Quote(v));
  }

  lemma TimeoutText(ps: seq<Pair>, key: string, secs: Int64, value: Int64)
    requires ps != []
    ensures Render(ps + TimeoutPair(key, secs, value)) ==
            if secs > 0 then Render(ps) + (" " + Assignment(key, Format(value))) else Render(ps)
  {
    if secs > 0 {
      AppendSetting(ps, key, Format(value));
      ReadFormat(value);
    } else {
      assert ps + [] == ps;
    }
  }

  lemma RenderSix(a: Pair, b: Pair, c: Pair, d: Pair, e: Pair, f: Pair)
    ensures Render([a, b, c, d, e, f]) ==
            Assignment(a.0, Quote(a.1)) + (" " + Assignment(b.0, Quote(b.1))) + (" " + Assignment(c.0, Quote(c.1)))
            + (" " + Assignment(d.0, Quote(d.1))) + (" " + Assignment(e.0, Quote(e.1))) + (" " + Assignment(f.0, Quote(f.1)))
  {
    AppendSetting([a], b.0, b.1);
    AppendSetting([a, b], c.0, c.1);
    AppendSetting([a, b, c], d.0, d.1);
    AppendSetting([a, b, c, d], e.0, e.1);
    AppendSetting([a, b, c, d, e], f.0, f.1);
    assert [a] + [b] == [a, b] && [a, b] + [c] == [a, b, c] && [a, b, c] + [d] == [a, b, c, d];
    assert [a, b, c, d] + [e] == [a, b, c, d, e] && [a, b, c, d, e] + [f] == [a, b, c, d, e, f];
    assert [a][1..] == [];
  }

  /** The fmt.Sprintf call that starts the string. */
  method PrintIdentity(c: Config) returns (dsn: string)
    ensures dsn == Render(Identity(c))
  {
    ReadFormat(c.port);
    RenderSix(("host", c.hostname), ("port", Format(c.port)), ("user", c.username), ("password", c.password),
              ("dbname", c.database), ("sslmode", c.sslMode));
    dsn := Assignment("host", Quote(c.hostname)) + (" " + Assignment("port", Format(c.port)))
           + (" " + Assignment("user", Quote(c.username))) + (" " + Assignment("password", Quote(c.password)))
           + (" " + Assignment("dbname", Quote(c.database))) + (" " + Assignment("sslmode", Quote(c.sslMode)));
  }

  /** Append a timeout setting unless it is disabled. */
  method AppendTimeout(dsn: string, ghost ps: seq<Pair>, key: string, secs: Int64, value: Int64) returns (r: string)
    requires ps != [] && dsn == Render(ps)
    ensures r == Render(ps + TimeoutPair(key, secs, value))
  {
    TimeoutText(ps, key, secs, value);
    r := dsn;
    if secs > 0 { r := dsn + (" " + Assignment(key, Format(value))); }
  }

  method BuildDsn(c: Config, purpose: ConnPurpose) returns (dsn: string)
    ensures dsn == Render(Settings(c, purpose))
  {
    dsn := PrintIdentity(c);
    dsn := AppendTimeout(dsn, Identity(c), "connect_timeout", c.connectTimeoutSecs, c.connectTimeoutSecs);
    ghost var ps := Identity(c) + ConnectTimeout(c);
    if purpose == Migration {
      assert Settings(c, Migration) == ps;
      return;
    }
    var statement, lock := Wrap(c.statementTimeoutSecs * 1000), Wrap(c.lockTimeoutSecs * 1000);
    dsn := AppendTimeout(dsn, ps, "statement_timeout", c.statementTimeoutSecs, statement);
    ps := ps + TimeoutPair("statement_timeout", c.statementTimeoutSecs, statement);
    dsn := AppendTimeout(dsn, ps, "lock_timeout", c.lockTimeoutSecs, lock);
    assert Settings(c, Runtime) == ps + TimeoutPair("lock_timeout", c.lockTimeoutSecs, lock);
  }

  datatype Result<+T> = Success(value: T) | Failure(error: ConfigError)

  class PostgreSQL {
    var username: string
    var password: string
    var hostname: string
    var port: Int64
    var database: string
    var sslMode: string
    var maxOpenConns: Int64
    var maxIdleConns: Int64
    var connMaxLifetimeMins: Int64
    var connMaxIdleTimeSecs: Int64
    var connectTimeoutSecs: Int64
    var statementTimeoutSecs: Int64
    var lockTimeoutSecs: Int64

    function Current(): Config
      reads this
    {
      Config(username, password, hostname, port, database, sslMode, maxOpenConns, maxIdleConns,
             connMaxLifetimeMins, connMaxIdleTimeSecs, connectTimeoutSecs, statementTimeoutSecs, lockTimeoutSecs)
    }

    /** Zero-valued pool limits and timeouts take their defaults. */
    method FillLimits()
      modifies this
      ensures Current() == WithLimits(old(Current()))
    {
      maxOpenConns, maxIdleConns := Or(maxOpenConns, 25), Or(maxIdleConns, 5);
      connMaxLifetimeMins, connMaxIdleTimeSecs := Or(connMaxLifetimeMins, 30), Or(connMaxIdleTimeSecs, 300);
      connectTimeoutSecs := Or(connectTimeoutSecs, 10);
      statementTimeoutSecs, lockTimeoutSecs := Or(statementTimeoutSecs, 60), Or(lockTimeoutSecs, 30);
    }

    method Validate() returns (err: Option<ConfigError>)
      modifies this
      ensures (Current(), err) == Validated(old(Current()))
    {
      if username == "" { return Some(MissingUsername); }
      if password == "" { return Some(MissingPassword); }
      if hostname == "" { return Some(MissingHostname); }
      if database == "" { return Some(MissingDatabase); }
      port := Or(port, 5432);
      assert Current() == WithPort(old(Current()));
      if port < 1 || port > 65535 { return Some(InvalidPort); }
      if sslMode == "" { sslMode := "prefer"; }
      assert Current() == WithMode(WithPort(old(Current())));
      if !IsSSLMode(sslMode) { return Some(InvalidSSLMode); }
      FillLimits();
      err := CheckTimeouts(Timeouts(Current()));
    }

    method ConnectionString(purpose: ConnPurpose) returns (r: Result<string>)
      modifies this
      ensures Current() == Validated(old(Current())).0
      ensures match Validated(old(Current())).1
              case Some(e) => r == Failure(e)
              case None => r == Success(Render(Settings(Current(), purpose)))
    {
      var err := Validate();
      if err.Some? { return Failure(err.value); }
      var dsn := BuildDsn(Current(), purpose);
      return Success(dsn);
    }
  }
}
