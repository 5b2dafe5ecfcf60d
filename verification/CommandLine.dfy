/**
 The command line of a Windows worker against the rules by which a C program parses it (Microsoft, "Parsing C
 command-line arguments"): when does the worker get exactly the program name and the arguments that were meant?
 */
module CommandLine {
  import opened Basics
  import opened Utf8

  type WString = seq<Unit>

  const SPACE: Unit := 32
  const TAB: Unit := 9
  const QUOTE: Unit := 34
  const BACKSLASH: Unit := 92
  const END: Unit := 0

  // The printer

  predicate Special(u: Unit) {
    u == SPACE || u == TAB || u == QUOTE
  }

  function Slashes(n: nat): (s: WString)
    ensures |s| == n
    ensures forall u :: u in s ==> u == BACKSLASH
  {
    seq(n, _ => BACKSLASH)
  }

  /** The inside of a quoted argument, with `slashes` backslashes still held back. */
  function Body(v: WString, slashes: nat): WString
    decreases |v|
  {
    if v == [] then Slashes(2 * slashes)
    else if v[0] == BACKSLASH then Body(v[1..], slashes + 1)
    else if v[0] == QUOTE then Slashes(2 * slashes + 1) + [QUOTE] + Body(v[1..], 0)
    else Slashes(slashes) + [v[0]] + Body(v[1..], 0)
  }

  function QuoteArgument(v: WString): (q: WString)
    ensures q != []
  {
    if v == [] then [QUOTE, QUOTE]
    else if forall u :: u in v ==> !Special(u) then v
    else [QUOTE] + Body(v, 0) + [QUOTE]
  }

  /** The loop with its slash counter. */
  method QuoteArgumentLoop(v: WString) returns (result: WString)
    ensures result == QuoteArgument(v)
  {
    if v == [] {
      return [QUOTE, QUOTE];
    }
    if forall u :: u in v ==> !Special(u) {
      return v;
    }
    result := [QUOTE];
    var slashes := 0;
    for i := 0 to |v|
      invariant result + Body(v[i..], slashes) == [QUOTE] + Body(v, 0)
    {
      var ch := v[i];
      assert v[i..][0] == ch && v[i..][1..] == v[i + 1..];
      if ch == BACKSLASH {
        slashes := slashes + 1;
      } else if ch == QUOTE {
        result := result + Slashes(2 * slashes + 1) + [QUOTE];
        slashes := 0;
      } else {
        result := result + Slashes(slashes) + [ch];
        slashes := 0;
      }
    }
    result := result + Slashes(2 * slashes) + [QUOTE];
  }

  function Tail(arguments: seq<WString>): WString {
    if arguments == [] then [] else [SPACE] + QuoteArgument(arguments[0]) + Tail(arguments[1..])
  }

  function WorkerCommandLine(executable: WString, arguments: seq<WString>): WString {
    QuoteArgument(executable) + Tail(arguments)
  }

  method WorkerCommandLineLoop(executable: WString, arguments: seq<WString>) returns (result: WString)
    ensures result == WorkerCommandLine(executable, arguments)
  {
    result := QuoteArgumentLoop(executable);
    for i := 0 to |arguments|
      invariant result + Tail(arguments[i..]) == WorkerCommandLine(executable, arguments)
    {
      TailStep(arguments, i, result);
      hide Tail, WorkerCommandLine;
      var quoted := QuoteArgumentLoop(arguments[i]);
      hide QuoteArgument;
      result := result + [SPACE];
      result := result + quoted;
    }
  }

  lemma {:induction false} TailStep(arguments: seq<WString>, i: nat, before: WString)
    requires i < |arguments|
    ensures before + Tail(arguments[i..]) == before + [SPACE] + QuoteArgument(arguments[i]) + Tail(arguments[i + 1..])
  {
    assert arguments[i..][0] == arguments[i] && arguments[i..][1..] == arguments[i + 1..];
    hide QuoteArgument;
  }

  // The parser of the C runtime

  predicate White(u: Unit) {
    u == SPACE || u == TAB
  }

  function CountSlashes(s: WString): (n: nat)
    ensures n <= |s|
    ensures forall i :: 0 <= i < n ==> s[i] == BACKSLASH
    ensures n < |s| ==> s[n] != BACKSLASH
  {
    if s == [] || s[0] != BACKSLASH then 0 else 1 + CountSlashes(s[1..])
  }

  /** One argument from its first character on: its value, and what follows it. */
  function ParseArgument(s: WString, quoted: bool, acc: WString): (WString, WString)
    decreases |s|
  {
    var n := CountSlashes(s);
    if s == [] then (acc, [])
    else if n > 0 then
      if n < |s| && s[n] == QUOTE then
        if n % 2 == 1 then ParseArgument(s[n + 1..], quoted, acc + Slashes(n / 2) + [QUOTE])
        else ParseArgument(s[n..], quoted, acc + Slashes(n / 2))
      else ParseArgument(s[n..], quoted, acc + Slashes(n))
    else if s[0] == QUOTE then
      if quoted && |s| > 1 && s[1] == QUOTE then ParseArgument(s[2..], quoted, acc + [QUOTE])
      else ParseArgument(s[1..], !quoted, acc)
    else if White(s[0]) && !quoted then (acc, s)
    else ParseArgument(s[1..], quoted, acc + [s[0]])
  }

  lemma {:induction false} ParseShrinks(s: WString, quoted: bool, acc: WString)
    ensures |ParseArgument(s, quoted, acc).1| <= |s|
    ensures !quoted && s != [] && !White(s[0]) ==> |ParseArgument(s, quoted, acc).1| < |s|
    decreases |s|
  {
    var n := CountSlashes(s);
    if s == [] {
    } else if n > 0 {
      if n < |s| && s[n] == QUOTE {
        if n % 2 == 1 {
          ParseShrinks(s[n + 1..], quoted, acc + Slashes(n / 2) + [QUOTE]);
        } else {
          ParseShrinks(s[n..], quoted, acc + Slashes(n / 2));
        }
      } else {
        ParseShrinks(s[n..], quoted, acc + Slashes(n));
      }
    } else if s[0] == QUOTE {
      if quoted && |s| > 1 && s[1] == QUOTE {
        ParseShrinks(s[2..], quoted, acc + [QUOTE]);
      } else {
        ParseShrinks(s[1..], !quoted, acc);
      }
    } else if !White(s[0]) || quoted {
      ParseShrinks(s[1..], quoted, acc + [s[0]]);
    }
  }

  function ParseArguments(s: WString): seq<WString>
    decreases |s|
  {
    if s == [] then []
    else if White(s[0]) then ParseArguments(s[1..])
    else
      ParseShrinks(s, false, []);
      var (argument, rest) := ParseArgument(s, false, []);
      [argument] + ParseArguments(rest)
  }

  /** The program name has rules of its own: quotes only group, and backslashes are ordinary characters. */
  function ParseProgram(s: WString, quoted: bool, acc: WString): (WString, WString)
    decreases |s|
  {
    if s == [] then (acc, [])
    else if s[0] == QUOTE then ParseProgram(s[1..], !quoted, acc)
    else if White(s[0]) && !quoted then (acc, s)
    else ParseProgram(s[1..], quoted, acc + [s[0]])
  }

  /** `argv` of a command line, which ends at its first NUL. */
  function ParseCommandLine(s: WString): seq<WString> {
    var text := s[..Find(s, END, 0)];
    var (program, rest) := ParseProgram(text, false, []);
    [program] + ParseArguments(rest)
  }

  // Arguments

  predicate Follows(rest: WString) {
    rest == [] || White(rest[0])
  }

  lemma {:induction false} CountOf(n: nat, rest: WString)
    requires rest == [] || rest[0] != BACKSLASH
    ensures CountSlashes(Slashes(n) + rest) == n
  {
    var s := Slashes(n) + rest;
    if n > 0 {
      CountOf(n - 1, rest);
      assert s[1..] == Slashes(n - 1) + rest;
    } else {
      assert s == rest;
    }
  }

  /** One step of the parser at a run of backslashes. */
  lemma {:induction false} ParseRun(n: nat, t: WString, quoted: bool, acc: WString)
    requires n > 0 && (t == [] || t[0] != BACKSLASH)
    ensures ParseArgument(Slashes(n) + t, quoted, acc) ==
              if t != [] && t[0] == QUOTE then
                if n % 2 == 1 then ParseArgument(t[1..], quoted, acc + Slashes(n / 2) + [QUOTE])
                else ParseArgument(t, quoted, acc + Slashes(n / 2))
              else ParseArgument(t, quoted, acc + Slashes(n))
  {
    var s := Slashes(n) + t;
    CountOf(n, t);
    assert s[n..] == t;
    assert t != [] ==> s[n] == t[0] && s[n + 1..] == t[1..];
    hide Slashes, CountSlashes;
  }

  lemma {:induction false} ParsePlain(v: WString, rest: WString, acc: WString)
    requires forall u :: u in v ==> !Special(u)
    requires Follows(rest)
    ensures ParseArgument(v + rest, false, acc) == (acc + v, rest)
    decreases |v|
  {
    var s := v + rest;
    if v == [] {
      assert s == rest && acc + v == acc;
    } else if v[0] == BACKSLASH {
      var n := CountSlashes(v);
      var t := v[n..] + rest;
      assert v == Slashes(n) + v[n..];
      assert s == Slashes(n) + t;
      assert n < |v| ==> t[0] == v[n] && v[n] in v;
      hide ParseArgument, Slashes;
      ParseRun(n, t, false, acc);
      ParsePlain(v[n..], rest, acc + Slashes(n));
      assert acc + Slashes(n) + v[n..] == acc + (Slashes(n) + v[n..]);
    } else {
      assert v[0] in v;
      assert s[0] == v[0] && s[1..] == v[1..] + rest;
      ParsePlain(v[1..], rest, acc + [v[0]]);
      assert acc + [v[0]] + v[1..] == acc + v;
    }
  }

  /** Held-back backslashes before an ordinary character, inside quotes. */
  lemma {:induction false} ParseOrdinary(n: nat, u: Unit, s: WString, acc: WString)
    requires u != QUOTE && u != BACKSLASH
    ensures ParseArgument(Slashes(n) + [u] + s, true, acc) == ParseArgument(s, true, acc + Slashes(n) + [u])
  {
    var t := [u] + s;
    assert Slashes(n) + [u] + s == Slashes(n) + t;
    assert t[1..] == s;
    if n > 0 {
      ParseRun(n, t, true, acc);
    } else {
      assert Slashes(n) + t == t && acc + Slashes(n) == acc;
    }
  }

  /** An odd number of backslashes before a quote: half of them and the quote itself. */
  lemma {:induction false} ParseEscaped(n: nat, s: WString, quoted: bool, acc: WString)
    ensures ParseArgument(Slashes(2 * n + 1) + [QUOTE] + s, quoted, acc) ==
              ParseArgument(s, quoted, acc + Slashes(n) + [QUOTE])
  {
    var m := 2 * n + 1;
    var t := [QUOTE] + s;
    assert Slashes(m) + [QUOTE] + s == Slashes(m) + t;
    assert t[1..] == s && m % 2 == 1 && m / 2 == n;
    hide ParseArgument, Slashes;
    ParseRun(m, t, quoted, acc);
  }

  /** An even number of backslashes before the closing quote: half of them, and the quoted part ends. */
  lemma {:induction false} ParseClosing(n: nat, rest: WString, acc: WString)
    requires Follows(rest)
    ensures ParseArgument(Slashes(2 * n) + [QUOTE] + rest, true, acc) == (acc + Slashes(n), rest)
  {
    var t := [QUOTE] + rest;
    assert Slashes(2 * n) + [QUOTE] + rest == Slashes(2 * n) + t;
    assert t[1..] == rest;
    if n > 0 {
      ParseRun(2 * n, t, true, acc);
    } else {
      assert Slashes(2 * n) + t == t && acc + Slashes(n) == acc;
    }
    assert CountSlashes(t) == 0;
    assert ParseArgument(t, true, acc + Slashes(n)) == ParseArgument(rest, false, acc + Slashes(n));
  }

  lemma {:induction false} ParseBody(v: WString, slashes: nat, rest: WString, acc: WString)
    requires Follows(rest)
    ensures ParseArgument(Body(v, slashes) + [QUOTE] + rest, true, acc) == (acc + Slashes(slashes) + v, rest)
    decreases |v|
  {
    hide ParseArgument, CountSlashes;
    if v == [] {
      ParseClosing(slashes, rest, acc);
      assert acc + Slashes(slashes) + v == acc + Slashes(slashes);
    } else if v[0] == BACKSLASH {
      ParseBody(v[1..], slashes + 1, rest, acc);
      assert Slashes(slashes + 1) == Slashes(slashes) + [BACKSLASH];
      assert acc + Slashes(slashes + 1) + v[1..] == acc + Slashes(slashes) + v;
    } else {
      ParseBodyStep(v, slashes, rest, acc);
      var before := acc + Slashes(slashes) + [v[0]];
      ParseBody(v[1..], 0, rest, before);
      assert before + Slashes(0) + v[1..] == acc + Slashes(slashes) + v;
    }
  }

  lemma {:induction false} ParseBodyStep(v: WString, slashes: nat, rest: WString, acc: WString)
    requires v != [] && v[0] != BACKSLASH
    ensures ParseArgument(Body(v, slashes) + [QUOTE] + rest, true, acc) ==
              ParseArgument(Body(v[1..], 0) + [QUOTE] + rest, true, acc + Slashes(slashes) + [v[0]])
  {
    hide ParseArgument, Slashes, CountSlashes;
    var later := Body(v[1..], 0) + [QUOTE] + rest;
    if v[0] == QUOTE {
      assert Body(v, slashes) + [QUOTE] + rest == Slashes(2 * slashes + 1) + [QUOTE] + later;
      ParseEscaped(slashes, later, true, acc);
    } else {
      assert Body(v, slashes) + [QUOTE] + rest == Slashes(slashes) + [v[0]] + later;
      ParseOrdinary(slashes, v[0], later, acc);
    }
  }

  lemma {:induction false} ParseOpening(t: WString, acc: WString)
    ensures ParseArgument([QUOTE] + t, false, acc) == ParseArgument(t, true, acc)
  {
    var s := [QUOTE] + t;
    assert s[1..] == t && CountSlashes(s) == 0;
  }

  /** Whatever the argument, the parser gives it back and stops right behind it. */
  lemma {:induction false} ParseQuoted(v: WString, rest: WString)
    requires Follows(rest)
    ensures ParseArgument(QuoteArgument(v) + rest, false, []) == (v, rest)
  {
    hide ParseArgument, Body;
    if v == [] {
      assert [QUOTE, QUOTE] + rest == [QUOTE] + ([QUOTE] + rest);
      assert Slashes(0) + [QUOTE] + rest == [QUOTE] + rest;
      ParseOpening([QUOTE] + rest, []);
      ParseClosing(0, rest, []);
      assert [] + Slashes(0) == [];
    } else if forall u :: u in v ==> !Special(u) {
      ParsePlain(v, rest, []);
      assert [] + v == v;
    } else {
      var t := Body(v, 0) + [QUOTE] + rest;
      assert QuoteArgument(v) + rest == [QUOTE] + t;
      ParseOpening(t, []);
      ParseBody(v, 0, rest, []);
      assert [] + Slashes(0) + v == v;
    }
  }

  lemma {:induction false} TailFollows(arguments: seq<WString>)
    ensures Follows(Tail(arguments))
  {
  }

  lemma {:induction false} QuotedStart(v: WString)
    ensures !White(QuoteArgument(v)[0])
  {
    if v != [] {
      assert v[0] in v;
    }
  }

  /** One argument behind its separating blank. */
  lemma {:induction false} ParseNext(v: WString, rest: WString)
    requires Follows(rest)
    ensures ParseArguments([SPACE] + QuoteArgument(v) + rest) == [v] + ParseArguments(rest)
  {
    var s := QuoteArgument(v) + rest;
    var whole := [SPACE] + s;
    assert [SPACE] + QuoteArgument(v) + rest == whole;
    assert whole[1..] == s;
    ParseQuoted(v, rest);
    QuotedStart(v);
    assert s[0] == QuoteArgument(v)[0];
    hide ParseArgument, QuoteArgument;
    assert ParseArguments(whole) == ParseArguments(s);
  }

  /** Parsing the printed arguments gives back exactly the list: empty ones, quotes and any run of backslashes included. */
  lemma {:induction false} ArgumentsRoundTrip(arguments: seq<WString>)
    ensures ParseArguments(Tail(arguments)) == arguments
  {
    if arguments != [] {
      TailFollows(arguments[1..]);
      ParseNext(arguments[0], Tail(arguments[1..]));
      ArgumentsRoundTrip(arguments[1..]);
      hide ParseArguments, QuoteArgument;
    }
  }

  // The program name

  lemma {:induction false} ProgramPlain(v: WString, rest: WString, quoted: bool, acc: WString)
    requires QUOTE !in v && (quoted || forall u :: u in v ==> !White(u))
    ensures ParseProgram(v + rest, quoted, acc) == ParseProgram(rest, quoted, acc + v)
    decreases |v|
  {
    if v == [] {
      assert v + rest == rest && acc + v == acc;
    } else {
      assert v[0] in v;
      assert (v + rest)[0] == v[0] && (v + rest)[1..] == v[1..] + rest;
      ProgramPlain(v[1..], rest, quoted, acc + [v[0]]);
      assert acc + [v[0]] + v[1..] == acc + v;
    }
  }

  /** Without a quote in it the body is the text itself, with the backslashes at its end doubled. */
  lemma {:induction false} BodyWithoutQuote(v: WString, slashes: nat) returns (k: nat)
    requires QUOTE !in v
    ensures Body(v, slashes) == Slashes(slashes) + v + Slashes(k)
    ensures k == 0 <==> if v == [] then slashes == 0 else v[|v| - 1] != BACKSLASH
    decreases |v|
  {
    if v == [] {
      k := slashes;
      assert Slashes(2 * slashes) == Slashes(slashes) + [] + Slashes(slashes);
    } else if v[0] == BACKSLASH {
      k := BodyWithoutQuote(v[1..], slashes + 1);
      assert Slashes(slashes + 1) + v[1..] == Slashes(slashes) + v;
    } else {
      k := BodyWithoutQuote(v[1..], 0);
      assert Slashes(slashes) + [v[0]] + (Slashes(0) + v[1..] + Slashes(k)) == Slashes(slashes) + v + Slashes(k);
    }
  }

  /** A program name that survives: no quote in it, and no backslash at its end if it has a blank. */
  predicate ProgramSurvives(v: WString) {
    QUOTE !in v && (SPACE in v || TAB in v ==> v[|v| - 1] != BACKSLASH)
  }

  lemma {:induction false} ProgramToggles(t: WString, quoted: bool, acc: WString)
    ensures ParseProgram([QUOTE] + t, quoted, acc) == ParseProgram(t, !quoted, acc)
  {
    assert ([QUOTE] + t)[1..] == t;
  }

  /** A quoted part without a quote in it is taken as it stands. */
  lemma {:induction false} ProgramQuoted(inside: WString, rest: WString)
    requires QUOTE !in inside && Follows(rest)
    ensures ParseProgram([QUOTE] + inside + [QUOTE] + rest, false, []) == (inside, rest)
  {
    assert [QUOTE] + inside + [QUOTE] + rest == [QUOTE] + (inside + ([QUOTE] + rest));
    ProgramToggles(inside + ([QUOTE] + rest), false, []);
    ProgramPlain(inside, [QUOTE] + rest, true, []);
    ProgramToggles(rest, true, inside);
    assert [] + inside == inside;
    assert ParseProgram(rest, false, inside) == (inside, rest);
  }

  lemma {:induction false} PlainProgram(v: WString, rest: WString)
    requires Follows(rest) && forall u :: u in v ==> !Special(u)
    ensures ParseProgram(v + rest, false, []) == (v, rest)
  {
    ProgramPlain(v, rest, false, []);
    assert [] + v == v;
    assert ParseProgram(rest, false, v) == (v, rest);
  }

  /** A program name in quotes comes back with the backslashes at its end doubled. */
  lemma {:induction false} QuotedProgram(v: WString, rest: WString) returns (k: nat)
    requires Follows(rest) && QUOTE !in v && v != []
    ensures ParseProgram([QUOTE] + Body(v, 0) + [QUOTE] + rest, false, []) == (v + Slashes(k), rest)
    ensures k == 0 <==> v[|v| - 1] != BACKSLASH
  {
    k := BodyWithoutQuote(v, 0);
    hide ParseProgram;
    assert Slashes(0) + v + Slashes(k) == v + Slashes(k);
    hide Body;
    ProgramQuoted(v + Slashes(k), rest);
  }

  lemma {:induction false} ProgramName(v: WString, rest: WString)
    requires Follows(rest) && QUOTE !in v
    ensures var (p, r) := ParseProgram(QuoteArgument(v) + rest, false, []); r == rest && (p == v <==> ProgramSurvives(v))
  {
    hide ParseProgram, Body, Slashes, Follows;
    if v == [] {
      ProgramQuoted([], rest);
      assert [QUOTE] + [] + [QUOTE] == [QUOTE, QUOTE];
    } else if forall u :: u in v ==> !Special(u) {
      PlainProgram(v, rest);
    } else {
      var k := QuotedProgram(v, rest);
      assert |v + Slashes(k)| == |v| + k;
      assert k == 0 ==> v + Slashes(k) == v;
    }
  }

  lemma {:induction false} ProgramHasNoQuote(s: WString, quoted: bool, acc: WString)
    requires QUOTE !in acc
    ensures QUOTE !in ParseProgram(s, quoted, acc).0
    decreases |s|
  {
    if s != [] && s[0] == QUOTE {
      ProgramHasNoQuote(s[1..], !quoted, acc);
    } else if s != [] && (!White(s[0]) || quoted) {
      ProgramHasNoQuote(s[1..], quoted, acc + [s[0]]);
    }
  }

  // NUL

  lemma {:induction false} ProgramHasNoNul(s: WString, quoted: bool, acc: WString)
    requires END !in acc && END !in s
    ensures END !in ParseProgram(s, quoted, acc).0 && END !in ParseProgram(s, quoted, acc).1
    decreases |s|
  {
    if s != [] && s[0] == QUOTE {
      ProgramHasNoNul(s[1..], !quoted, acc);
    } else if s != [] && (!White(s[0]) || quoted) {
      ProgramHasNoNul(s[1..], quoted, acc + [s[0]]);
    }
  }

  lemma {:induction false} ArgumentHasNoNul(s: WString, quoted: bool, acc: WString)
    requires END !in acc && END !in s
    ensures END !in ParseArgument(s, quoted, acc).0 && END !in ParseArgument(s, quoted, acc).1
    decreases |s|
  {
    var n := CountSlashes(s);
    if s == [] {
    } else if n > 0 {
      if n < |s| && s[n] == QUOTE {
        if n % 2 == 1 {
          ArgumentHasNoNul(s[n + 1..], quoted, acc + Slashes(n / 2) + [QUOTE]);
        } else {
          ArgumentHasNoNul(s[n..], quoted, acc + Slashes(n / 2));
        }
      } else {
        ArgumentHasNoNul(s[n..], quoted, acc + Slashes(n));
      }
    } else if s[0] == QUOTE {
      if quoted && |s| > 1 && s[1] == QUOTE {
        ArgumentHasNoNul(s[2..], quoted, acc + [QUOTE]);
      } else {
        ArgumentHasNoNul(s[1..], !quoted, acc);
      }
    } else if !White(s[0]) || quoted {
      ArgumentHasNoNul(s[1..], quoted, acc + [s[0]]);
    }
  }

  predicate NulFree(values: seq<WString>) {
    forall v :: v in values ==> END !in v
  }

  lemma {:induction false} ArgumentsHaveNoNul(s: WString)
    requires END !in s
    ensures NulFree(ParseArguments(s))
    decreases |s|
  {
    if s != [] {
      if White(s[0]) {
        ArgumentsHaveNoNul(s[1..]);
      } else {
        ParseShrinks(s, false, []);
        ArgumentHasNoNul(s, false, []);
        hide ParseArgument;
        ArgumentsHaveNoNul(ParseArgument(s, false, []).1);
      }
    }
  }

  /** A parser that stops at the first NUL never yields one. */
  lemma {:induction false} ParsedHaveNoNul(s: WString)
    ensures NulFree(ParseCommandLine(s))
  {
    var text := s[..Find(s, END, 0)];
    assert text == s[0..Find(s, END, 0)];
    ProgramHasNoNul(text, false, []);
    ArgumentsHaveNoNul(ParseProgram(text, false, []).1);
  }

  lemma {:induction false} BodyHasNoNul(v: WString, slashes: nat)
    requires END !in v
    ensures END !in Body(v, slashes)
    decreases |v|
  {
    if v != [] {
      BodyHasNoNul(v[1..], if v[0] == BACKSLASH then slashes + 1 else 0);
    }
  }

  lemma {:induction false} TailHasNoNul(arguments: seq<WString>)
    requires NulFree(arguments)
    ensures END !in Tail(arguments)
  {
    if arguments != [] {
      assert arguments[0] in arguments;
      BodyHasNoNul(arguments[0], 0);
      TailHasNoNul(arguments[1..]);
    }
  }

  // The whole command line

  lemma {:induction false} ParsesTo(executable: WString, arguments: seq<WString>)
    requires END !in executable && NulFree(arguments) && QUOTE !in executable
    ensures ParseCommandLine(WorkerCommandLine(executable, arguments)) == [executable] + arguments <==>
              ProgramSurvives(executable)
  {
    var s := WorkerCommandLine(executable, arguments);
    BodyHasNoNul(executable, 0);
    TailHasNoNul(arguments);
    assert END !in s;
    assert s[..Find(s, END, 0)] == s;
    TailFollows(arguments);
    ProgramName(executable, Tail(arguments));
    ArgumentsRoundTrip(arguments);
    var p := ParseProgram(s, false, []).0;
    hide ParseProgram, Tail, QuoteArgument, ProgramSurvives, ParseArguments;
    assert ([p] + arguments)[0] == p && ([executable] + arguments)[0] == executable;
  }

  /**
   The worker's `argv` is exactly the program name and the argument list if and only if nothing contains a NUL, the
   program name contains no quote, and a program name with a blank does not end in a backslash. On the arguments there
   is no other condition: empty ones, quotes and any run of backslashes come through.
   */
  lemma {:induction false} CommandLineRoundTrip(executable: WString, arguments: seq<WString>)
    ensures ParseCommandLine(WorkerCommandLine(executable, arguments)) == [executable] + arguments <==>
              NulFree([executable] + arguments) && ProgramSurvives(executable)
  {
    var s := WorkerCommandLine(executable, arguments);
    var parsed := ParseCommandLine(s);
    var all := [executable] + arguments;
    assert all[0] == executable && all[1..] == arguments;
    assert NulFree(all) ==> END !in executable && NulFree(arguments);
    ParsedHaveNoNul(s);
    if QUOTE in executable {
      ProgramHasNoQuote(s[..Find(s, END, 0)], false, []);
      assert parsed[0] != executable;
    } else if NulFree(all) {
      ParsesTo(executable, arguments);
    }
  }

  lemma {:induction false} OnlyProgram(s: WString, program: WString)
    requires END !in s && ParseProgram(s, false, []) == (program, [])
    ensures ParseCommandLine(s) == [program]
  {
    assert s == s + [];
    FindSkips(s, END, 0, s, []);
    assert s[..|s|] == s;
    assert ParseArguments([]) == [];
  }

  /** A program name with a blank and a final backslash comes back with one backslash too many. */
  lemma {:induction false} FinalBackslashDoubles()
    ensures ParseCommandLine(WorkerCommandLine([97, SPACE, BACKSLASH], [])) == [[97, SPACE, BACKSLASH, BACKSLASH]]
  {
    var v := [97, SPACE, BACKSLASH];
    var inside := v + [BACKSLASH];
    assert Body([BACKSLASH], 0) == Body([], 1) == [BACKSLASH, BACKSLASH];
    assert v[1..][1..] == [BACKSLASH];
    assert Body(v[1..], 0) == [SPACE, BACKSLASH, BACKSLASH];
    assert Body(v, 0) == inside;
    assert v[1] in v;
    assert WorkerCommandLine(v, []) == [QUOTE] + inside + [QUOTE] + [];
    ProgramQuoted(inside, []);
    OnlyProgram(WorkerCommandLine(v, []), inside);
    assert inside == [97, SPACE, BACKSLASH, BACKSLASH];
  }

  /** A program name that is a quote comes back as a backslash. */
  lemma {:induction false} QuoteIsLost()
    ensures ParseCommandLine(WorkerCommandLine([QUOTE], [])) == [[BACKSLASH]]
  {
    var v := [QUOTE];
    assert Body(v, 0) == [BACKSLASH, QUOTE];
    assert v[0] in v;
    var s := WorkerCommandLine(v, []);
    assert s == [QUOTE] + [BACKSLASH, QUOTE, QUOTE];
    assert [BACKSLASH, QUOTE, QUOTE] == [BACKSLASH] + [QUOTE, QUOTE];
    ProgramToggles([BACKSLASH, QUOTE, QUOTE], false, []);
    ProgramPlain([BACKSLASH], [QUOTE, QUOTE], true, []);
    assert [] + [BACKSLASH] == [BACKSLASH];
    assert [QUOTE] + [QUOTE] == [QUOTE, QUOTE] && [QUOTE] + [] == [QUOTE];
    ProgramToggles([QUOTE], true, [BACKSLASH]);
    ProgramToggles([], false, [BACKSLASH]);
    assert ParseProgram([], true, [BACKSLASH]) == ([BACKSLASH], []);
    hide ParseProgram;
    OnlyProgram(s, [BACKSLASH]);
  }
}
