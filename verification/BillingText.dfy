/** The concrete syntax of the billing DSL: string tokens, decimal integers and the
    parser for the v1 grammar `expr := guard ? tier : expr | tier`. */
module BillingText {
  import opened Wrappers

  // ---------------------------------------------------------------- string tokens

  function EscapeChar(c: char): string {
    if c == '\\' then "\\\\" else if c == '"' then "\\\"" else [c]
  }

  function Escape(s: string): string {
    if s == "" then "" else EscapeChar(s[0]) + Escape(s[1..])
  }

  function Quote(s: string): string {
    "\"" + Escape(s) + "\""
  }

  method QuoteNote(s: string) returns (b: string)
    ensures b == Quote(s)
  {
    b := "\"";
    var i := 0;
    while i < |s|
      invariant 0 <= i <= |s|
      invariant b + Escape(s[i..]) == "\"" + Escape(s)
    {
      assert s[i..][1..] == s[i + 1..];
      assert b + Escape(s[i..]) == (b + EscapeChar(s[i])) + Escape(s[i + 1..]);
      match s[i] {
        case '\\' => b := b + "\\\\";
        case '"' => b := b + "\\\"";
        case c => b := b + [c];
      }
      i := i + 1;
    }
    b := b + "\"";
  }

  /** Reads the inside of a token up to and including its closing quote. */
  function ParseBody(t: string): (r: Parsed<string>)
    ensures r.Done? ==> |r.rest| < |t|
  {
    if t == "" then Fail
    else if t[0] == '"' then Done("", t[1..])
    else if t[0] == '\\' then
      if |t| < 2 || (t[1] != '\\' && t[1] != '"') then Fail
      else
        match ParseBody(t[2..])
        case Fail => Fail
        case Done(v, rest) => Done([t[1]] + v, rest)
    else
      match ParseBody(t[1..])
      case Fail => Fail
      case Done(v, rest) => Done([t[0]] + v, rest)
  }

  function ParseQuoted(t: string): (r: Parsed<string>)
    ensures r.Done? ==> |r.rest| < |t|
  {
    match Strip("\"", t)
    case None => Fail
    case Some(u) => ParseBody(u)
  }

  /** Tokens are self-delimiting: whatever follows, the parser stops at the token's own
      closing quote and gives back the original string. */
  lemma {:induction false} QuotedRoundTrip(s: string, rest: string)
    ensures ParseQuoted(Quote(s) + rest) == Done(s, rest)
  {
    BodyRoundTrip(s, rest);
    assert Quote(s) + rest == "\"" + (Escape(s) + "\"" + rest);
    StripPrefix("\"", Escape(s) + "\"" + rest);
  }

  lemma {:induction false} BodyRoundTrip(s: string, rest: string)
    ensures ParseBody(Escape(s) + "\"" + rest) == Done(s, rest)
  {
    var t := Escape(s) + "\"" + rest;
    if s == "" {
      assert t == "\"" + rest;
    } else {
      BodyRoundTrip(s[1..], rest);
      var e := EscapeChar(s[0]);
      assert t == e + (Escape(s[1..]) + "\"" + rest);
      assert t[|e|..] == Escape(s[1..]) + "\"" + rest;
      assert [s[0]] + s[1..] == s;
    }
  }

  /** The other direction: every accepted token is the quotation of its value. */
  lemma {:induction false} QuotedIsCanonical(t: string)
    ensures forall v, rest :: ParseQuoted(t) == Done(v, rest) ==> t == Quote(v) + rest
  {
    if "\"" <= t {
      BodyIsCanonical(t[1..]);
      assert t == "\"" + t[1..];
    }
  }

  lemma {:induction false} BodyIsCanonical(t: string)
    ensures forall v, rest :: ParseBody(t) == Done(v, rest) ==> t == Escape(v) + "\"" + rest
  {
    if t == "" {
    } else if t[0] == '"' {
      assert t == "\"" + t[1..];
    } else {
      var n := if t[0] == '\\' then 2 else 1;
      if n <= |t| {
        BodyIsCanonical(t[n..]);
        if ParseBody(t).Done? && ParseBody(t[n..]).Done? { BodyStep(t, n); }
      }
    }
  }

  lemma BodyStep(t: string, n: nat)
    requires 0 < n <= |t| && t[..n] == EscapeChar(t[n - 1]) && ParseBody(t[n..]).Done?
    requires var p := ParseBody(t[n..]); t[n..] == Escape(p.value) + "\"" + p.rest
    ensures var p := ParseBody(t[n..]); t == Escape([t[n - 1]] + p.value) + "\"" + p.rest
  {
    var c, p := t[n - 1], ParseBody(t[n..]);
    assert ([c] + p.value)[1..] == p.value;
    assert t == t[..n] + t[n..];
  }

  // ---------------------------------------------------------------- integers

  const DIGITS := "0123456789"

  predicate IsDigit(c: char) { '0' <= c <= '9' }

  function Digits(n: nat): (d: string)
    ensures d != "" && IsDigit(d[0])
  {
    if n < 10 then [DIGITS[n]] else Digits(n / 10) + [DIGITS[n % 10]]
  }

  /** fmt's %d. */
  function Itoa(n: int): string {
    if n < 0 then "-" + Digits(-n) else Digits(n)
  }

  function ScanDigits(t: string, acc: nat): (r: (nat, string))
    ensures |r.1| <= |t|
  {
    if t != "" && IsDigit(t[0])
    then ScanDigits(t[1..], 10 * acc + (t[0] as int - '0' as int))
    else (acc, t)
  }

  function ParseInt(t: string): (r: Parsed<int>)
    ensures r.Done? ==> |r.rest| < |t|
  {
    var u := if "-" <= t then t[1..] else t;
    if u == "" || !IsDigit(u[0]) then Fail
    else
      var scan := ScanDigits(u[1..], u[0] as int - '0' as int);
      var n: int := scan.0;
      Done(if "-" <= t then -n else n, scan.1)
  }

  lemma {:induction false} ScanPrinted(n: nat, rest: string)
    ensures ScanDigits(Digits(n) + rest, 0) == ScanDigits(rest, n)
  {
    if n < 10 {
      assert (Digits(n) + rest)[1..] == rest;
    } else {
      var tail := [DIGITS[n % 10]] + rest;
      assert Digits(n) + rest == Digits(n / 10) + tail;
      ScanPrinted(n / 10, tail);
      assert tail[1..] == rest;
    }
  }

  lemma {:induction false} NatRoundTrip(n: nat, rest: string)
    requires rest == "" || !IsDigit(rest[0])
    ensures var u := Digits(n) + rest;
            IsDigit(u[0]) && ScanDigits(u[1..], u[0] as int - '0' as int) == (n, rest)
  {
    var u := Digits(n) + rest;
    ScanPrinted(n, rest);
    assert ScanDigits(u, 0) == ScanDigits(u[1..], 10 * 0 + (u[0] as int - '0' as int));
  }

  lemma {:induction false} SignedScan(u: string, n: int, rest: string)
    requires u != "" && IsDigit(u[0])
    requires var scan := ScanDigits(u[1..], u[0] as int - '0' as int); scan.0 == n && scan.1 == rest
    ensures ParseInt(u) == Done(n, rest) && ParseInt("-" + u) == Done(-n, rest)
  {
    assert ("-" + u)[1..] == u;
    assert u[0] != "-"[0];
  }

  lemma {:induction false} IntRoundTrip(n: int, rest: string)
    requires rest == "" || !IsDigit(rest[0])
    ensures ParseInt(Itoa(n) + rest) == Done(n, rest)
  {
    var m: nat := if n < 0 then -n else n;
    NatRoundTrip(m, rest);
    SignedScan(Digits(m) + rest, m, rest);
    Assoc("-", Digits(m), rest);
  }

  // ---------------------------------------------------------------- grammar

  datatype Clause = Has(param: string, value: string)

  datatype Call = Call(tierLabel: string, fixed: int, note: string)

  datatype Branch = Branch(guard: seq<Clause>, call: Call)

  /** A parsed ternary chain: guarded branches, then the unguarded final call. */
  datatype Chain = Chain(branches: seq<Branch>, otherwise: Call)

  function ClauseText(c: Clause): string {
    "has(param(" + Quote(c.param) + ")," + Quote(c.value) + ")"
  }

  function GuardText(guard: seq<Clause>): string {
    Join(Apply(ClauseText, guard), " && ")
  }

  function CallText(c: Call): string {
    "tier(" + Quote(c.tierLabel) + ", " + Itoa(c.fixed) + ", " + Quote(c.note) + ")"
  }

  function ParseCall(t: string): (r: Parsed<Call>)
    ensures r.Done? ==> |r.rest| < |t|
  {
    match Strip("tier(", t) case None => Fail case Some(t1) =>
    match ParseQuoted(t1) case Fail => Fail case Done(tierLabel, t2) =>
    match Strip(", ", t2) case None => Fail case Some(t3) =>
    match ParseInt(t3) case Fail => Fail case Done(fixed, t4) =>
    match Strip(", ", t4) case None => Fail case Some(t5) =>
    match ParseQuoted(t5) case Fail => Fail case Done(note, t6) =>
    match Strip(")", t6) case None => Fail case Some(t7) =>
    Done(Call(tierLabel, fixed, note), t7)
  }

  function ParseClause(t: string): (r: Parsed<Clause>)
    ensures r.Done? ==> |r.rest| < |t|
  {
    match Strip("has(param(", t) case None => Fail case Some(t1) =>
    match ParseQuoted(t1) case Fail => Fail case Done(param, t2) =>
    match Strip("),", t2) case None => Fail case Some(t3) =>
    match ParseQuoted(t3) case Fail => Fail case Done(value, t4) =>
    match Strip(")", t4) case None => Fail case Some(t5) =>
    Done(Has(param, value), t5)
  }

  function ParseGuard(t: string): (r: Parsed<seq<Clause>>)
    ensures r.Done? ==> |r.rest| < |t|
    decreases |t|
  {
    match ParseClause(t) case Fail => Fail case Done(c, t1) =>
    match Strip(" && ", t1) case None => Done([c], t1) case Some(t2) =>
    match ParseGuard(t2) case Fail => Fail case Done(cs, t3) =>
    Done([c] + cs, t3)
  }

  /** The whole text must be one expression: trailing text makes it malformed. */
  function ParseChain(t: string): (r: Option<Chain>)
    decreases |t|
  {
    if "tier(" <= t then
      match ParseCall(t)
      case Done(call, "") => Some(Chain([], call))
      case _ => None
    else
      match ParseGuard(t) case Fail => None case Done(guard, t1) =>
      match Strip(" ? ", t1) case None => None case Some(t2) =>
      match ParseCall(t2) case Fail => None case Done(call, t3) =>
      match Strip(" : ", t3) case None => None case Some(t4) =>
      match ParseChain(t4) case None => None case Some(chain) =>
      Some(Chain([Branch(guard, call)] + chain.branches, chain.otherwise))
  }

  // ---------------------------------------------------------------- parser inverts printer

  lemma {:induction false} CallRoundTrip(c: Call, rest: string)
    ensures ParseCall(CallText(c) + rest) == Done(c, rest)
  {
    var q, i, n := Quote(c.tierLabel), Itoa(c.fixed), Quote(c.note);
    var u6 := ")" + rest;
    var u5 := n + u6;
    var u4 := ", " + u5;
    var u3 := i + u4;
    var u2 := ", " + u3;
    var u1 := q + u2;
    assert CallText(c) + rest == "tier(" + u1 by {
      Assoc("tier(" + q + ", " + i + ", " + n, ")", rest);
      Assoc("tier(" + q + ", " + i + ", ", n, u6);
      Assoc("tier(" + q + ", " + i, ", ", u5);
      Assoc("tier(" + q + ", ", i, u4);
      Assoc("tier(" + q, ", ", u3);
      Assoc("tier(", q, u2);
    }
    StripPrefix("tier(", u1);
    QuotedRoundTrip(c.tierLabel, u2);
    StripPrefix(", ", u3);
    IntRoundTrip(c.fixed, u4);
    StripPrefix(", ", u5);
    QuotedRoundTrip(c.note, u6);
    StripPrefix(")", rest);
  }

  lemma {:induction false} ClauseRoundTrip(c: Clause, rest: string)
    ensures ParseClause(ClauseText(c) + rest) == Done(c, rest)
  {
    var p, v := Quote(c.param), Quote(c.value);
    var u4 := ")" + rest;
    var u3 := v + u4;
    var u2 := ")," + u3;
    var u1 := p + u2;
    assert ClauseText(c) + rest == "has(param(" + u1 by {
      Assoc("has(param(" + p + ")," + v, ")", rest);
      Assoc("has(param(" + p + "),", v, u4);
      Assoc("has(param(" + p, "),", u3);
      Assoc("has(param(", p, u2);
    }
    StripPrefix("has(param(", u1);
    QuotedRoundTrip(c.param, u2);
    StripPrefix("),", u3);
    QuotedRoundTrip(c.value, u4);
    StripPrefix(")", rest);
  }

  lemma GuardTextCons(guard: seq<Clause>)
    requires guard != []
    ensures GuardText(guard) ==
            if |guard| == 1 then ClauseText(guard[0])
            else ClauseText(guard[0]) + " && " + GuardText(guard[1..])
  {
    assert Apply(ClauseText, guard)[1..] == Apply(ClauseText, guard[1..]);
  }

  lemma {:induction false} ParseGuardStep(t: string, c: Clause, u: string, cs: seq<Clause>, rest: string)
    requires ParseClause(t) == Done(c, " && " + u) && Strip(" && ", " && " + u) == Some(u)
    requires ParseGuard(u) == Done(cs, rest)
    ensures ParseGuard(t) == Done([c] + cs, rest)
  {}

  lemma {:induction false} GuardRoundTrip(guard: seq<Clause>, rest: string)
    requires guard != [] && !(" && " <= rest)
    ensures ParseGuard(GuardText(guard) + rest) == Done(guard, rest)
  {
    GuardTextCons(guard);
    if |guard| == 1 {
      ClauseRoundTrip(guard[0], rest);
      assert [guard[0]] == guard;
    } else {
      GuardRoundTrip(guard[1..], rest);
      var head := ClauseText(guard[0]);
      var tail := GuardText(guard[1..]);
      var u2 := tail + rest;
      var u1 := " && " + u2;
      assert GuardText(guard) + rest == head + u1 by {
        Assoc(head + " && ", tail, rest);
        Assoc(head, " && ", u2);
      }
      ClauseRoundTrip(guard[0], u1);
      StripPrefix(" && ", u2);
      ParseGuardStep(head + u1, guard[0], u2, guard[1..], rest);
      assert [guard[0]] + guard[1..] == guard;
    }
  }

  lemma GuardTextStart(guard: seq<Clause>, rest: string)
    requires guard != []
    ensures !("tier(" <= GuardText(guard) + rest) && GuardText(guard) != ""
  {
    GuardTextCons(guard);
    assert GuardText(guard)[0] == 'h';
    assert (GuardText(guard) + rest)[0] == 'h';
    assert "tier("[0] == 't';
  }

  lemma CallTextStart(c: Call, rest: string)
    ensures "tier(" <= CallText(c) + rest
  {
    assert CallText(c) + rest ==
      "tier(" + (Quote(c.tierLabel) + ", " + Itoa(c.fixed) + ", " + Quote(c.note) + ")" + rest);
  }
}
