/** dsnQuote, pgIdent and pgLiteral against the grammars that read their results. */
module Quoting {
  import opened Types

  /** strings.ReplaceAll for a single-character search string. */
  function ReplaceAll(s: string, c: char, sub: string): string {
    if s == "" then "" else (if s[0] == c then sub else [s[0]]) + ReplaceAll(s[1..], c, sub)
  }

  function DsnQuote(s: string): string {
    "'" + ReplaceAll(ReplaceAll(s, '\\', "\\\\"), '\'', "\\'") + "'"
  }

  function PgIdent(s: string): string { "\"" + ReplaceAll(s, '"', "\"\"") + "\"" }

  function PgLiteral(s: string): string { "'" + ReplaceAll(s, '\'', "''") + "'" }

  lemma {:induction false} ReplaceDistributes(a: string, b: string, c: char, sub: string)
    ensures ReplaceAll(a + b, c, sub) == ReplaceAll(a, c, sub) + ReplaceAll(b, c, sub)
  {
    if a == "" {
      assert a + b == b;
    } else {
      assert (a + b)[1..] == a[1..] + b;
      ReplaceDistributes(a[1..], b, c, sub);
    }
  }

  /** One escape per character. */
  function Escaped(s: string): string {
    if s == "" then ""
    else EscapedChar(s[0]) + Escaped(s[1..])
  }

  function EscapedChar(c: char): string { if c == '\\' || c == '\'' then ['\\', c] else [c] }

  lemma TwoPassesOnOne(c: char)
    ensures ReplaceAll(if c == '\\' then "\\\\" else [c], '\'', "\\'") == EscapedChar(c)
  {
    var both := "\\\\";
    assert both[1..] == "\\" && "\\"[1..] == "" && [c][1..] == "";
  }

  /** The two replacement passes do not disturb each other. */
  lemma {:induction false} TwoPassesAreOneEscape(s: string)
    ensures ReplaceAll(ReplaceAll(s, '\\', "\\\\"), '\'', "\\'") == Escaped(s)
  {
    if s != "" {
      var first := if s[0] == '\\' then "\\\\" else [s[0]];
      var rest := ReplaceAll(s[1..], '\\', "\\\\");
      assert ReplaceAll(s, '\\', "\\\\") == first + rest;
      ReplaceDistributes(first, rest, '\'', "\\'");
      TwoPassesOnOne(s[0]);
      TwoPassesAreOneEscape(s[1..]);
    }
  }

  // ------------------------------- keyword/value connection strings (libpq 34.1.1.1)

  predicate IsBlank(c: char) { c == ' ' || c == '\t' || c == '\n' || c == '\r' || c as int == 11 || c as int == 12 }

  /** A value read so far, with what follows it. */
  datatype Parsed = Parsed(value: string, rest: string)

  function Prepend(s: string, p: Option<Parsed>): Option<Parsed> {
    if p.Some? then Some(Parsed(s + p.value.value, p.value.rest)) else None
  }

  /** After an opening quote: a backslash takes the next character as it is, and a
      connection string ends at a NUL. */
  function ScanQuoted(s: string): Option<Parsed> {
    if s == "" || s[0] == '\0' then None
    else if s[0] == '\'' then Some(Parsed("", s[1..]))
    else if s[0] == '\\' then
      if |s| == 1 || s[1] == '\0' then None else Prepend([s[1]], ScanQuoted(s[2..]))
    else Prepend([s[0]], ScanQuoted(s[1..]))
  }

  /** Outside quotes: up to the next blank, with the same backslash rule. */
  function ScanBare(s: string): Parsed {
    if s == "" || s[0] == '\0' || IsBlank(s[0]) then Parsed("", s)
    else if s[0] == '\\' then
      if |s| == 1 || s[1] == '\0' then ScanBare(s[1..])
      else var p := ScanBare(s[2..]); Parsed([s[1]] + p.value, p.rest)
    else var p := ScanBare(s[1..]); Parsed([s[0]] + p.value, p.rest)
  }

  function SkipBlanks(s: string): string {
    if s != "" && IsBlank(s[0]) then SkipBlanks(s[1..]) else s
  }

  /** The value after `keyword=`. */
  function ParseValue(s: string): Option<Parsed> {
    var t := SkipBlanks(s);
    if t != "" && t[0] == '\'' then ScanQuoted(t[1..]) else Some(ScanBare(t))
  }

  lemma PrependTwice(a: string, b: string, p: Option<Parsed>)
    ensures Prepend(a, Prepend(b, p)) == Prepend(a + b, p)
    ensures Prepend("", p) == p
  {
    if p.Some? {
      assert a + (b + p.value.value) == (a + b) + p.value.value;
      assert "" + p.value.value == p.value.value;
    }
  }

  lemma ScanEscapedChar(c: char, s: string)
    ensures ScanQuoted(EscapedChar(c) + s) == if c == '\0' then None else Prepend([c], ScanQuoted(s))
  {
    var head := EscapedChar(c);
    assert (head + s)[|head|..] == s;
  }

  lemma {:induction false} ScanEscaped(v: string, tail: string)
    ensures ScanQuoted(Escaped(v) + tail) == if '\0' in v then None else Prepend(v, ScanQuoted(tail))
  {
    if v == "" {
      assert Escaped(v) + tail == tail;
      PrependTwice("", "", ScanQuoted(tail));
    } else {
      assert v == [v[0]] + v[1..];
      assert Escaped(v) + tail == EscapedChar(v[0]) + (Escaped(v[1..]) + tail);
      ScanEscapedChar(v[0], Escaped(v[1..]) + tail);
      ScanEscaped(v[1..], tail);
      PrependTwice([v[0]], v[1..], ScanQuoted(tail));
    }
  }

  /** What dsnQuote wrote is read back whole, whatever follows it, exactly for the
      strings a connection string can hold at all. */
  lemma DsnQuoteRoundTrips(v: string, rest: string)
    ensures ParseValue(DsnQuote(v) + rest) == Some(Parsed(v, rest)) <==> '\0' !in v
  {
    TwoPassesAreOneEscape(v);
    var tail := "'" + rest;
    assert DsnQuote(v) + rest == "'" + (Escaped(v) + tail);
    assert SkipBlanks(DsnQuote(v) + rest) == DsnQuote(v) + rest;
    assert (DsnQuote(v) + rest)[1..] == Escaped(v) + tail;
    ScanEscaped(v, tail);
    assert tail[1..] == rest && v + "" == v;
  }

  predicate Ordinary(v: string) {
    forall i | 0 <= i < |v| :: !IsBlank(v[i]) && v[i] != '\\' && v[i] != '\0'
  }

  /** What a value needs to survive without quotes. */
  predicate Plain(v: string) {
    v != "" && v[0] != '\'' && Ordinary(v)
  }

  lemma {:induction false} BareLengths(s: string)
    ensures |ScanBare(s).value| + |ScanBare(s).rest| <= |s|
    decreases |s|
  {
    if s == "" || s[0] == '\0' || IsBlank(s[0]) {
    } else if s[0] == '\\' && !(|s| == 1 || s[1] == '\0') {
      BareLengths(s[2..]);
    } else {
      BareLengths(s[1..]);
    }
  }

  lemma {:induction false} BareIsExact(v: string, tail: string)
    requires tail != "" && IsBlank(tail[0])
    ensures ScanBare(v + tail) == Parsed(v, tail) <==> Ordinary(v)
  {
    var s := v + tail;
    if v == "" {
      assert s == tail;
    } else {
      assert s[1..] == v[1..] + tail;
      BareIsExact(v[1..], tail);
      assert v == [v[0]] + v[1..];
      if v[0] == '\\' {
        BareLengths(s[1..]);
        if |s| > 1 && s[1] != '\0' { BareLengths(s[2..]); }
      } else if !IsBlank(v[0]) && v[0] != '\0' {
        forall i | 0 <= i < |v[1..]| ensures v[1..][i] == v[i + 1] {}
        if ScanBare(s) == Parsed(v, tail) { assert ScanBare(s[1..]).value == v[1..]; }
      }
    }
  }

  lemma {:induction false} QuotedLengths(s: string)
    ensures ScanQuoted(s).Some? ==> |ScanQuoted(s).value.value| + |ScanQuoted(s).value.rest| < |s|
    decreases |s|
  {
    if s != "" && s[0] != '\0' && s[0] != '\'' {
      if s[0] == '\\' {
        if |s| > 1 { QuotedLengths(s[2..]); }
      } else {
        QuotedLengths(s[1..]);
      }
    }
  }

  lemma {:induction false} SkipLengths(s: string)
    ensures |SkipBlanks(s)| <= |s|
    ensures s != "" && IsBlank(s[0]) ==> |SkipBlanks(s)| < |s|
  {
    if s != "" && IsBlank(s[0]) { SkipLengths(s[1..]); }
  }

  /** The fields that runRewind and configureAsStandby put into a connection string
      without quoting are read back exactly when they are plain; an empty password,
      for one, is not. */
  lemma UnquotedFieldRoundTrips(v: string, rest: string)
    ensures ParseValue(v + " " + rest) == Some(Parsed(v, " " + rest)) <==> Plain(v)
  {
    var tail := " " + rest;
    var s := v + " " + rest;
    assert s == v + tail;
    SkipLengths(s);
    var t := SkipBlanks(s);
    if IsBlank(s[0]) {
      BareLengths(t);
      if t != "" { QuotedLengths(t[1..]); }
    } else {
      assert t == s && s[0] == v[0];
      if v[0] == '\'' {
        QuotedLengths(t[1..]);
      } else {
        BareIsExact(v, tail);
      }
    }
  }

  // ------------------------------------------------- whole connection strings

  datatype Field = Field(keyword: string, value: string)

  /** A keyword ends at its equals sign, with blanks allowed in between. */
  function ScanKeyword(s: string): Option<Parsed> {
    if s == "" || s[0] == '\0' then None
    else if s[0] == '=' then Some(Parsed("", s[1..]))
    else if IsBlank(s[0]) then
      var t := SkipBlanks(s);
      if t != "" && t[0] == '=' then Some(Parsed("", t[1..])) else None
    else Prepend([s[0]], ScanKeyword(s[1..]))
  }

  lemma {:induction false} KeywordLengths(s: string)
    ensures ScanKeyword(s).Some? ==> |ScanKeyword(s).value.value| + 1 + |ScanKeyword(s).value.rest| <= |s|
  {
    SkipLengths(s);
    if s != "" && s[0] != '\0' && s[0] != '=' && !IsBlank(s[0]) { KeywordLengths(s[1..]); }
  }

  /** A value takes at least its own length, and more if anything was skipped, quoted or escaped. */
  lemma ValueLengths(s: string)
    ensures ParseValue(s).Some? ==> |ParseValue(s).value.value| + |ParseValue(s).value.rest| <= |s|
  {
    SkipLengths(s);
    BareLengths(SkipBlanks(s));
    if SkipBlanks(s) != "" { QuotedLengths(SkipBlanks(s)[1..]); }
  }

  /** All keyword=value pairs up to the end of the string. */
  function ParseInfo(s: string): Option<seq<Field>>
    decreases |s|
  {
    var t := SkipBlanks(s);
    if t == "" || t[0] == '\0' then Some([])
    else
      SkipLengths(s);
      KeywordLengths(t);
      var k := ScanKeyword(t);
      if k.None? then None
      else
        ValueLengths(k.value.rest);
        var v := ParseValue(k.value.rest);
        if v.None? then None
        else
          var more := ParseInfo(v.value.rest);
          if more.None? then None else Some([Field(k.value.value, v.value.value)] + more.value)
  }

  predicate IsKeyword(k: string) {
    k != "" && forall i | 0 <= i < |k| :: k[i] != '=' && k[i] != '\0' && !IsBlank(k[i])
  }

  function Pair(f: Field): string { f.keyword + "=" + f.value }

  function Render(fields: seq<Field>): string {
    if fields == [] then "" else if |fields| == 1 then Pair(fields[0]) else Pair(fields[0]) + " " + Render(fields[1..])
  }

  /** Every value can stand without quotes; the last one may also be empty. */
  predicate AllPlain(fields: seq<Field>) {
    forall i | 0 <= i < |fields| :: Plain(fields[i].value) || (i == |fields| - 1 && fields[i].value == "")
  }

  lemma {:induction false} KeywordIsExact(k: string, s: string)
    requires forall i | 0 <= i < |k| :: k[i] != '=' && k[i] != '\0' && !IsBlank(k[i])
    ensures ScanKeyword(k + "=" + s) == Some(Parsed(k, s))
  {
    var all := k + "=" + s;
    if k == "" {
      assert all[1..] == s;
    } else {
      assert all[1..] == k[1..] + "=" + s && k == [k[0]] + k[1..];
      KeywordIsExact(k[1..], s);
    }
  }

  lemma {:induction false} BareToEnd(v: string)
    requires Ordinary(v)
    ensures ScanBare(v) == Parsed(v, "")
  {
    if v != "" {
      BareToEnd(v[1..]);
      assert v == [v[0]] + v[1..];
    }
  }

  lemma {:induction false} PlainIsRead(fields: seq<Field>)
    requires fields != [] && AllPlain(fields) && forall i | 0 <= i < |fields| :: IsKeyword(fields[i].keyword)
    ensures ParseInfo(Render(fields)) == Some(fields)
    ensures ParseInfo(" " + Render(fields)) == Some(fields)
  {
    var f, s := fields[0], Render(fields);
    var tail := if |fields| == 1 then "" else " " + Render(fields[1..]);
    var value := f.value + tail;
    assert s == f.keyword + "=" + value;
    assert SkipBlanks(s) == s && s[0] == f.keyword[0];
    KeywordIsExact(f.keyword, value);
    assert (" " + s)[1..] == s && SkipBlanks(" " + s) == s;
    if |fields| == 1 {
      assert value == f.value && SkipBlanks(value) == value;
      BareToEnd(f.value);
      assert ParseValue(value) == Some(Parsed(f.value, ""));
      assert fields == [f] + [];
    } else {
      assert value == f.value + " " + Render(fields[1..]);
      UnquotedFieldRoundTrips(f.value, Render(fields[1..]));
      forall i | 0 <= i < |fields[1..]| ensures fields[1..][i] == fields[i + 1] {}
      PlainIsRead(fields[1..]);
      assert fields == [f] + fields[1..];
    }
  }

  lemma EscapeIsLoose(s: string)
    requires s != "" && s[0] == '\\'
    ensures |ScanBare(s).value| + |ScanBare(s).rest| < |s|
  {
    BareLengths(s[1..]);
    if |s| > 1 && s[1] != '\0' {
      BareLengths(s[2..]);
      assert |ScanBare(s).value| == 1 + |ScanBare(s[2..]).value|;
    }
  }

  /** A bare value that took no more than its own length is what stands there, with nothing special in it. */
  lemma {:induction false} TightIsPlain(s: string)
    requires |ScanBare(s).value| + |ScanBare(s).rest| == |s|
    ensures Ordinary(ScanBare(s).value) && ScanBare(s).value <= s
  {
    if s == "" || s[0] == '\0' || IsBlank(s[0]) {
      assert ScanBare(s).value == "";
    } else {
      if s[0] == '\\' { EscapeIsLoose(s); }
      TightIsPlain(s[1..]);
      TightStep(s, ScanBare(s[1..]).value);
    }
  }

  lemma TightStep(s: string, v: string)
    requires s != "" && !IsBlank(s[0]) && s[0] != '\\' && s[0] != '\0'
    requires Ordinary(v) && v <= s[1..]
    ensures Ordinary([s[0]] + v) && [s[0]] + v <= s
  {
    assert forall i | 0 <= i < |v| :: v[i] == s[1..][i] == s[i + 1];
  }

  lemma {:induction false} BareStops(s: string)
    ensures var rest := ScanBare(s).rest; rest == "" || rest[0] == '\0' || IsBlank(rest[0])
    decreases |s|
  {
    if s == "" || s[0] == '\0' || IsBlank(s[0]) {
    } else if s[0] == '\\' && !(|s| == 1 || s[1] == '\0') {
      BareStops(s[2..]);
    } else {
      BareStops(s[1..]);
    }
  }

  function Size(fields: seq<Field>): nat { |Render(fields)| }

  lemma {:induction false} SkipTwice(s: string)
    ensures SkipBlanks(SkipBlanks(s)) == SkipBlanks(s)
  {
    if s != "" && IsBlank(s[0]) { SkipTwice(s[1..]); }
  }

  lemma SkipIsFree(s: string)
    ensures ParseInfo(SkipBlanks(s)) == ParseInfo(s)
  {
    SkipTwice(s);
  }

  /** No string shorter than the rendered fields parses into them, and one of just that length only if
      all of them are plain. */
  lemma {:induction false} ReadIsPlain(s: string, fields: seq<Field>)
    requires fields != [] && ParseInfo(s) == Some(fields)
    ensures |s| >= Size(fields)
    ensures |s| == Size(fields) ==> AllPlain(fields)
    decreases |fields|
  {
    var t := SkipBlanks(s);
    SkipLengths(s);
    KeywordLengths(t);
    var k := ScanKeyword(t).value;
    ValueLengths(k.rest);
    var v := ParseValue(k.rest).value;
    var more := ParseInfo(v.rest).value;
    assert fields == [Field(k.value, v.value)] + more && fields[1..] == more;
    if more == [] {
      TightValue(k.rest);
    } else {
      SkipIsFree(v.rest);
      ReadIsPlain(SkipBlanks(v.rest), more);
      TightValue(k.rest);
      forall i | 0 <= i < |more| ensures more[i] == fields[i + 1] {}
    }
  }

  /** The same for one value; what follows a value costs at least one character more. */
  lemma TightValue(s: string)
    requires ParseValue(s).Some?
    ensures var p := ParseValue(s).value;
      && (|p.value| + |p.rest| == |s| ==> Plain(p.value) || p.value == "")
      && (Continues(p.rest) ==> |p.value| + 1 + |SkipBlanks(p.rest)| <= |s|)
      && (Continues(p.rest) && |p.value| + 1 + |SkipBlanks(p.rest)| == |s| ==> Plain(p.value))
  {
    var t := SkipBlanks(s);
    var p := ParseValue(s).value;
    SkipLengths(s);
    SkipLengths(p.rest);
    if t != "" && t[0] == '\'' {
      QuotedLengths(t[1..]);
    } else {
      SkipStops(s);
      BareLengths(t);
      BareStops(t);
      if |p.value| + |p.rest| == |t| { TightIsPlain(t); }
    }
  }

  predicate Continues(rest: string) { SkipBlanks(rest) != "" && SkipBlanks(rest)[0] != '\0' }

  lemma {:induction false} SkipStops(s: string)
    ensures SkipBlanks(s) == "" || !IsBlank(SkipBlanks(s)[0])
  {
    if s != "" && IsBlank(s[0]) { SkipStops(s[1..]); }
  }

  /** A connection string written field by field without quotes is read back as those fields if and only if
      every value is plain. */
  lemma InfoRoundTrips(fields: seq<Field>)
    requires fields != [] && forall i | 0 <= i < |fields| :: IsKeyword(fields[i].keyword)
    ensures ParseInfo(Render(fields)) == Some(fields) <==> AllPlain(fields)
  {
    if AllPlain(fields) {
      PlainIsRead(fields);
    } else if ParseInfo(Render(fields)) == Some(fields) {
      ReadIsPlain(Render(fields), fields);
    }
  }

  /** The connection string of configureAsStandby. */
  function ConnInfo(host: string, port: string, user: string, password: string, dbname: string): string {
    "host=" + host + " port=" + port + " user=" + user + " password=" + password + " dbname=" + dbname
    + " sslmode=disable"
  }

  function ConnFields(host: string, port: string, user: string, password: string, dbname: string): seq<Field> {
    [Field("host", host), Field("port", port), Field("user", user), Field("password", password),
     Field("dbname", dbname), Field("sslmode", "disable")]
  }

  lemma {:induction false} RenderSnoc(fields: seq<Field>, f: Field)
    requires fields != []
    ensures Render(fields + [f]) == Render(fields) + " " + Pair(f)
  {
    assert (fields + [f])[1..] == fields[1..] + [f];
    if |fields| > 1 { RenderSnoc(fields[1..], f); }
  }

  /** One more verb of the format string. */
  lemma Appended(fields: seq<Field>, keyword: string, value: string)
    requires fields != []
    ensures Render(fields + [Field(keyword, value)]) == Render(fields) + (" " + keyword + "=") + value
  {
    RenderSnoc(fields, Field(keyword, value));
  }

  lemma ConnInfoIsRendered(host: string, port: string, user: string, password: string, dbname: string)
    ensures ConnInfo(host, port, user, password, dbname) == Render(ConnFields(host, port, user, password, dbname))
  {
    var f1 := [Field("host", host)];
    var f2 := f1 + [Field("port", port)];
    var f3 := f2 + [Field("user", user)];
    var f4 := f3 + [Field("password", password)];
    var f5 := f4 + [Field("dbname", dbname)];
    assert "host" + "=" == "host=" && " " + "port" + "=" == " port=" && " " + "user" + "=" == " user=";
    assert " " + "password" + "=" == " password=" && " " + "dbname" + "=" == " dbname=";
    Appended(f1, "port", port);
    Appended(f2, "user", user);
    Appended(f3, "password", password);
    Appended(f4, "dbname", dbname);
    RenderSnoc(f5, Field("sslmode", "disable"));
    assert " " + Pair(Field("sslmode", "disable")) == " sslmode=disable";
    assert ConnFields(host, port, user, password, dbname) == f5 + [Field("sslmode", "disable")];
    assert Render(f5) + " " + Pair(Field("sslmode", "disable"))
        == Render(f5) + (" " + Pair(Field("sslmode", "disable")));
  }

  lemma ConnFieldsArePlain(host: string, port: string, user: string, password: string, dbname: string)
    ensures var fields := ConnFields(host, port, user, password, dbname);
      && (forall i | 0 <= i < 6 :: IsKeyword(fields[i].keyword))
      && ((forall i | 0 <= i < 6 :: Plain(fields[i].value)) <==>
          Plain(host) && Plain(port) && Plain(user) && Plain(password) && Plain(dbname))
  {
    var fields := ConnFields(host, port, user, password, dbname);
    assert Plain(fields[5].value);
    assert fields[0].value == host && fields[1].value == port && fields[2].value == user;
    assert fields[3].value == password && fields[4].value == dbname;
  }

  /** What configureAsStandby writes is read back as the six fields it was made of if and only if all five
      settings are plain. */
  lemma ConnInfoRoundTrips(host: string, port: string, user: string, password: string, dbname: string)
    ensures
      ParseInfo(ConnInfo(host, port, user, password, dbname)) == Some(ConnFields(host, port, user, password, dbname))
      <==> Plain(host) && Plain(port) && Plain(user) && Plain(password) && Plain(dbname)
  {
    var fields := ConnFields(host, port, user, password, dbname);
    ConnInfoIsRendered(host, port, user, password, dbname);
    ConnFieldsArePlain(host, port, user, password, dbname);
    InfoRoundTrips(fields);
    assert Plain(fields[5].value);
  }

  const Timeout := Field("connect_timeout", "5")

  /** One more field that is itself in order changes nothing. */
  lemma OneMoreField(fields: seq<Field>, f: Field, text: string)
    requires |fields| == 6 && (forall i | 0 <= i < 6 :: IsKeyword(fields[i].keyword))
    requires IsKeyword(f.keyword) && Plain(f.value) && text == " " + Pair(f)
    ensures ParseInfo(Render(fields) + text) == Some(fields + [f]) <==> forall i | 0 <= i < 6 :: Plain(fields[i].value)
  {
    RenderSnoc(fields, f);
    assert Render(fields) + " " + Pair(f) == Render(fields) + text;
    InfoRoundTrips(fields + [f]);
    SevenPlain(fields, f);
  }

  /** The same for the connection string of runRewind, which adds a timeout. */
  lemma RewindInfoRoundTrips(host: string, port: string, user: string, password: string, dbname: string)
    ensures
      ParseInfo(ConnInfo(host, port, user, password, dbname) + " connect_timeout=5")
        == Some(ConnFields(host, port, user, password, dbname) + [Timeout])
      <==> Plain(host) && Plain(port) && Plain(user) && Plain(password) && Plain(dbname)
  {
    ConnInfoIsRendered(host, port, user, password, dbname);
    ConnFieldsArePlain(host, port, user, password, dbname);
    assert " " + Pair(Timeout) == " connect_timeout=5";
    OneMoreField(ConnFields(host, port, user, password, dbname), Timeout, " connect_timeout=5");
  }

  lemma SevenPlain(fields: seq<Field>, f: Field)
    requires |fields| == 6 && Plain(f.value)
    ensures AllPlain(fields + [f]) <==> forall i | 0 <= i < 6 :: Plain(fields[i].value)
  {
    var all := fields + [f];
    assert forall i | 0 <= i < 6 :: all[i] == fields[i];
  }

  /** An empty password takes the next keyword for itself. */
  lemma EmptyPasswordSwallows(dbname: string, rest: string)
    requires Plain(dbname)
    ensures ParseValue("" + " " + ("dbname=" + dbname + " " + rest)) == Some(Parsed("dbname=" + dbname, " " + rest))
  {
    var word := "dbname=" + dbname;
    var s := "" + " " + ("dbname=" + dbname + " " + rest);
    assert s[1..] == word + (" " + rest);
    assert SkipBlanks(s) == word + (" " + rest);
    BareIsExact(word, " " + rest);
  }

  // -------------------------- delimited identifiers and literals (ISO/IEC 9075-2 5.2, 5.3)

  /** After an opening delimiter: two delimiters stand for one, a single one ends. */
  function ScanDelimited(s: string, q: char): Option<Parsed> {
    if s == "" then None
    else if s[0] != q then Prepend([s[0]], ScanDelimited(s[1..], q))
    else if |s| > 1 && s[1] == q then Prepend([q], ScanDelimited(s[2..], q))
    else Some(Parsed("", s[1..]))
  }

  /** A delimited identifier has at least one character. */
  function ParseIdent(s: string): Option<Parsed> {
    if s == "" || s[0] != '"' then None
    else
      var p := ScanDelimited(s[1..], '"');
      if p.Some? && p.value.value == "" then None else p
  }

  function ParseLiteral(s: string): Option<Parsed> {
    if s == "" || s[0] != '\'' then None else ScanDelimited(s[1..], '\'')
  }

  lemma ScanDoubledChar(c: char, s: string, q: char)
    ensures ScanDelimited((if c == q then [q, q] else [c]) + s, q) == Prepend([c], ScanDelimited(s, q))
  {
    var head := if c == q then [q, q] else [c];
    assert (head + s)[|head|..] == s;
  }

  lemma {:induction false} ScanDoubled(v: string, tail: string, q: char)
    ensures ScanDelimited(ReplaceAll(v, q, [q, q]) + tail, q) == Prepend(v, ScanDelimited(tail, q))
  {
    var d := ReplaceAll(v, q, [q, q]);
    if v == "" {
      assert d + tail == tail;
      PrependTwice("", "", ScanDelimited(tail, q));
    } else {
      var rest := ReplaceAll(v[1..], q, [q, q]);
      assert v == [v[0]] + v[1..];
      assert d + tail == (if v[0] == q then [q, q] else [v[0]]) + (rest + tail);
      ScanDoubledChar(v[0], rest + tail, q);
      ScanDoubled(v[1..], tail, q);
      PrependTwice([v[0]], v[1..], ScanDelimited(tail, q));
    }
  }

  /** A delimiter ends the text exactly when no further one follows it. */
  lemma ScanClosing(rest: string, q: char)
    ensures ScanDelimited([q] + rest, q) == Some(Parsed("", rest)) <==> rest == "" || rest[0] != q
  {
    assert ([q] + rest)[1..] == rest;
  }

  lemma PrependIs(v: string, p: Option<Parsed>, rest: string)
    ensures Prepend(v, p) == Some(Parsed(v, rest)) <==> p == Some(Parsed("", rest))
  {
    if p.Some? { assert |v + p.value.value| == |v| + |p.value.value|; }
    assert v + "" == v;
  }

  /** The closing delimiter closes exactly when no further one follows it. */
  lemma DelimitedRoundTrips(v: string, rest: string, q: char)
    ensures ScanDelimited(ReplaceAll(v, q, [q, q]) + [q] + rest, q) == Some(Parsed(v, rest))
      <==> rest == "" || rest[0] != q
  {
    var d := ReplaceAll(v, q, [q, q]);
    assert d + [q] + rest == d + ([q] + rest);
    ScanDoubled(v, [q] + rest, q);
    ScanClosing(rest, q);
    PrependIs(v, ScanDelimited([q] + rest, q), rest);
  }

  lemma PgIdentRoundTrips(v: string, rest: string)
    ensures ParseIdent(PgIdent(v) + rest) == Some(Parsed(v, rest)) <==> v != "" && (rest == "" || rest[0] != '"')
  {
    var d := ReplaceAll(v, '"', "\"\"");
    assert "\"\"" == ['"', '"'];
    assert (PgIdent(v) + rest)[1..] == d + ['"'] + rest;
    DelimitedRoundTrips(v, rest, '"');
  }

  lemma PgLiteralRoundTrips(v: string, rest: string)
    ensures ParseLiteral(PgLiteral(v) + rest) == Some(Parsed(v, rest)) <==> rest == "" || rest[0] != '\''
  {
    var d := ReplaceAll(v, '\'', "''");
    assert "''" == ['\'', '\''];
    assert (PgLiteral(v) + rest)[1..] == d + ['\''] + rest;
    DelimitedRoundTrips(v, rest, '\'');
  }
}
