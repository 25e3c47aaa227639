/** Printing a block and reading it back gives the block exactly when its strings are safe. */
module CaddyExact {
  import opened Basics
  import opened CaddyLexer
  import opened CaddyDispenser
  import opened CaddyRoundTrip

  // ----- the strings of a block that was read are tokens -----

  ghost function Strings(vs: List<Value>): set<string> {
    match vs
    case Nil => {}
    case Cons(Text(s), rest) => {s} + Strings(rest)
    case Cons(Block(lines), rest) => BlockStrings(lines) + Strings(rest)
  }

  ghost function BlockStrings(ls: List<List<Value>>): set<string> {
    match ls
    case Nil => {}
    case Cons(l, rest) => Strings(l) + BlockStrings(rest)
  }

  ghost predicate HasText(ts: seq<Token>, s: string) {
    exists k :: 0 <= k < |ts| && ts[k].text == s
  }

  ghost predicate AllHad(ts: seq<Token>, strings: set<string>) {
    forall s :: s in strings ==> HasText(ts, s)
  }

  lemma {:induction false} LineStrings(ts: seq<Token>, c: nat)
    requires c < |ts|
    ensures AllHad(ts, Strings(LineRest(ts, c).value))
    decreases |ts| - c, 0
  {
    if SameLine(ts, c) {
      if ts[c + 1].text == "{" {
        BlockStringsHad(ts, c + 1);
        LineStrings(ts, BlockFrom(ts, c + 1).cursor);
      } else {
        LineStrings(ts, c + 1);
      }
    }
  }

  lemma {:induction false} BlockStringsHad(ts: seq<Token>, c: nat)
    requires c < |ts|
    ensures AllHad(ts, BlockStrings(BlockFrom(ts, c).value))
    decreases |ts| - c, 1
  {
    if c + 1 < |ts| && ts[c + 1].text != "}" {
      var args := LineRest(ts, c + 1);
      LineStrings(ts, c + 1);
      BlockStringsHad(ts, args.cursor);
      assert Strings(Cons(Text(ts[c + 1].text), args.value)) == {ts[c + 1].text} + Strings(args.value);
    }
  }

  // ----- what tokens look like -----

  predicate Plain(s: string) {
    forall i :: 0 <= i < |s| ==> PlainChar(s[i])
  }

  /** A quoted token has its backslashes in pairs; any other has plain characters only. */
  predicate Lexed(s: string) {
    BackslashesPair(s, false) || Plain(s)
  }

  lemma {:induction false} PairsConcat(a: string, b: string, odd: bool)
    requires BackslashesPair(a, odd) && BackslashesPair(b, false)
    ensures BackslashesPair(a + b, odd)
    decreases |a|
  {
    if a == "" {
      assert a + b == b;
    } else {
      assert (a + b)[1..] == a[1..] + b;
      PairsConcat(a[1..], b, if a[0] == '\\' then !odd else false);
    }
  }

  /** What a quoted character adds keeps the backslashes in pairs. */
  lemma {:induction false} QuotedCharPairs(val: string, escaped: bool, c: char)
    requires BackslashesPair(val, false) && (escaped || c != '\\')
    ensures BackslashesPair((if escaped && c != '"' then val + "\\" else val) + [c], false)
  {
    if escaped && c != '"' {
      var two := ['\\', c];
      assert two[1..] == [c] && [c][1..] == "";
      PairsConcat(val, two, false);
      assert val + two == val + "\\" + [c];
    } else {
      assert [c][1..] == "";
      PairsConcat(val, [c], false);
    }
  }

  ghost predicate AllLexed(ts: seq<Token>) {
    forall k :: 0 <= k < |ts| ==> Lexed(ts[k].text)
  }

  lemma {:induction false} TokensLexed(t: string, line: nat, sc: Scanner)
    requires if sc.quoted then BackslashesPair(sc.val, false) else Plain(sc.val)
    ensures AllLexed(Scan(t, line, sc))
    decreases |t|
  {
    if t != "" {
      var e := Feed(t[0], line, sc);
      if sc.quoted && (sc.escaped || (t[0] != '\\' && t[0] != '"')) {
        QuotedCharPairs(sc.val, sc.escaped, t[0]);
      }
      TokensLexed(t[1..], e.line, if e.token then FRESH else e.sc);
    }
  }

  // ----- where quotes stand in printed text -----

  /** The quote in front of the text closes a printed string. */
  predicate Closes(t: string) {
    |t| > 1 && (t[1] == ' ' || t[1] == '\n')
  }

  /** The quote in front of the text opens a printed string. */
  ghost predicate Opens(t: string) {
    exists s, rest :: Opening(s, rest, t)
  }

  ghost predicate Opening(s: string, rest: string, t: string) {
    NeedsQuotes(s) && Lexed(s) && t == PrintText(s) + rest
  }

  /** Each quote character is escaped, or closes or opens a printed string. */
  ghost predicate QuotesOk(t: string, escaped: bool)
    decreases |t|
  {
    t != "" ==>
      && (t[0] == '"' ==> escaped || Closes(t) || Opens(t))
      && QuotesOk(t[1..], t[0] == '\\')
  }

  /** A text without quote characters may stand in front. */
  lemma {:induction false} NoQuotes(a: string, rest: string, escaped: bool)
    requires '"' !in a && QuotesOk(rest, false)
    ensures QuotesOk(a + rest, escaped)
    decreases |a|
  {
    if a == "" {
      assert a + rest == rest;
    } else {
      assert (a + rest)[0] == a[0] && (a + rest)[1..] == a[1..] + rest;
      NoQuotes(a[1..], rest, a[0] == '\\');
    }
  }

  lemma {:induction false} EscapedQuotes(s: string, rest: string, escaped: bool)
    requires rest != "" && (rest[0] == ' ' || rest[0] == '\n') && QuotesOk(rest, false)
    ensures QuotesOk(Escaped(s) + "\"" + rest, escaped)
    decreases |s|
  {
    var t := Escaped(s) + "\"" + rest;
    if s == "" {
      assert t[0] == '"' && t[1..] == rest;
    } else {
      var tail := Escaped(s[1..]) + "\"" + rest;
      if s[0] == '"' {
        EscapedQuotes(s[1..], rest, false);
        assert t[0] == '\\' && t[1..] == "\"" + tail && ("\"" + tail)[1..] == tail;
      } else {
        EscapedQuotes(s[1..], rest, s[0] == '\\');
        assert t[0] == s[0] && t[1..] == tail;
      }
    }
  }

  lemma {:induction false} PrintedQuotes(s: string, rest: string)
    requires Lexed(s) && rest != "" && (rest[0] == ' ' || rest[0] == '\n') && QuotesOk(rest, false)
    ensures QuotesOk(PrintText(s) + rest, false)
  {
    if NeedsQuotes(s) {
      var t := PrintText(s) + rest;
      assert Opening(s, rest, t);
      QuotedText(s, rest);
      EscapedQuotes(s, rest, false);
    } else {
      NoQuotes(s, rest, false);
    }
  }

  lemma {:induction false} TabsQuotes(n: nat)
    ensures '"' !in Tabs(n)
  {
    if n > 0 {
      TabsQuotes(n - 1);
    }
  }

  lemma {:induction false} Nests(a: string, b: string, c: string, d: string, e: string)
    ensures a + b + c + d + e == a + (b + (c + (d + e)))
  {
  }

  ghost predicate StringsLexed(strings: set<string>) {
    forall s :: s in strings ==> Lexed(s)
  }

  lemma {:induction false} LineQuotes(vs: List<Value>, depth: nat, lead: string, rest: string)
    requires depth > 0 && (lead == "" || lead == " ") && StringsLexed(Strings(vs))
    requires rest != "" && rest[0] == '\n' && QuotesOk(rest, false)
    ensures QuotesOk(PrintLine(vs, depth, lead) + rest, false)
    decreases vs, 0
  {
    match vs {
      case Nil =>
        assert "" + rest == rest;
      case Cons(Text(s), tail) =>
        var more := PrintLine(tail, depth, lead) + rest;
        LineQuotes(tail, depth, lead, rest);
        assert s in Strings(vs);
        if tail.Nil? {
          PrintedQuotes(s, rest);
          assert PrintLine(vs, depth, lead) == PrintText(s);
        } else {
          NoQuotes(" ", more, false);
          PrintedQuotes(s, " " + more);
          Nests("", PrintText(s), " ", PrintLine(tail, depth, lead), rest);
          assert "" + PrintText(s) == PrintText(s) && "" + (PrintText(s) + (" " + more)) == PrintText(s) + (" " + more);
        }
      case Cons(Block(lines), tail) =>
        var more := PrintLine(tail, depth, lead) + rest;
        LineQuotes(tail, depth, lead, rest);
        var gap := if tail.Nil? then "" else lead;
        NoQuotes(gap, more, false);
        BodyQuotes(lines, depth, lead, gap + more);
        NoQuotes(lead + "{\n", PrintBody(lines, depth, lead) + (gap + more), false);
        Nests(lead + "{\n", PrintBody(lines, depth, lead), gap, PrintLine(tail, depth, lead), rest);
    }
  }

  lemma {:induction false} BodyQuotes(ls: List<List<Value>>, depth: nat, lead: string, rest: string)
    requires depth > 0 && (lead == "" || lead == " ") && StringsLexed(BlockStrings(ls)) && QuotesOk(rest, false)
    ensures QuotesOk(PrintBody(ls, depth, lead) + rest, false)
    decreases ls, 1
  {
    match ls {
      case Nil =>
        TabsQuotes(depth - 1);
        NoQuotes(Tabs(depth - 1) + "}", rest, false);
      case Cons(l, tail) =>
        var more := PrintBody(tail, depth, lead) + rest;
        BodyQuotes(tail, depth, lead, rest);
        NoQuotes("\n", more, false);
        LineQuotes(l, depth + 1, lead, "\n" + more);
        TabsQuotes(depth);
        NoQuotes(Tabs(depth), PrintLine(l, depth + 1, lead) + ("\n" + more), false);
        Nests(Tabs(depth), PrintLine(l, depth + 1, lead), "\n", PrintBody(tail, depth, lead), rest);
    }
  }

  // ----- what the tokens of printed text look like -----

  /** No token is empty, and one without quoted characters is plain. */
  predicate Clean(s: string) {
    NeedsQuotes(s) || (s != "" && Plain(s))
  }

  ghost predicate AllClean(ts: seq<Token>) {
    forall k :: 0 <= k < |ts| ==> Clean(ts[k].text)
  }

  lemma {:induction false} QuotesSuffix(t: string, escaped: bool, k: nat)
    requires QuotesOk(t, escaped) && 0 < k <= |t|
    ensures QuotesOk(t[k..], t[k - 1] == '\\')
    decreases k
  {
    if k > 1 {
      QuotesSuffix(t[1..], t[0] == '\\', k - 1);
      assert t[1..][k - 1..] == t[k..];
    }
  }

  lemma {:induction false} CleanUnquoted(t: string, line: nat, sc: Scanner, escaped: bool)
    requires !sc.quoted && !sc.escaped && Plain(sc.val) && QuotesOk(t, escaped) && (escaped ==> sc.comment || sc.val != "")
    ensures AllClean(Scan(t, line, sc))
    decreases |t|, 1
  {
    if t != "" {
      var e := Feed(t[0], line, sc);
      if e.token {
        CleanUnquoted(t[1..], e.line, FRESH, false);
      } else if !e.sc.quoted {
        CleanUnquoted(t[1..], e.line, e.sc, t[0] == '\\');
      } else if Closes(t) {
        CleanGap(t[1..], line, e.sc);
      } else {
        CleanOpened(t, line, sc);
      }
    }
  }

  /** Out of step, a quoted token that starts with the separator of two strings. */
  lemma {:induction false} CleanGap(t: string, line: nat, sc: Scanner)
    requires sc.quoted && !sc.escaped && sc.val == "" && t != "" && (t[0] == ' ' || t[0] == '\n') && QuotesOk(t, false)
    ensures AllClean(Scan(t, line, sc))
    decreases |t|, 1
  {
    var e := Feed(t[0], line, sc);
    assert e.sc.val[0] == t[0];
    CleanQuoted(t[1..], e.line, e.sc, false);
  }

  /** A quoted token that already has a quoted character. */
  lemma {:induction false} CleanQuoted(t: string, line: nat, sc: Scanner, escaped: bool)
    requires sc.quoted && NeedsQuotes(sc.val) && QuotesOk(t, escaped)
    ensures AllClean(Scan(t, line, sc))
    decreases |t|, 1
  {
    if t != "" {
      var e := Feed(t[0], line, sc);
      if e.token {
        CleanUnquoted(t[1..], e.line, FRESH, false);
      } else {
        NeedsGrows(sc.val, e.sc.val);
        CleanQuoted(t[1..], e.line, e.sc, t[0] == '\\');
      }
    }
  }

  lemma {:induction false} NeedsGrows(a: string, b: string)
    requires NeedsQuotes(a) && a <= b
    ensures NeedsQuotes(b)
  {
    var i :| 0 <= i < |a| && ForcesQuotes(a[i]);
    assert b[i] == a[i];
  }

  /** The token that a printed string opens. */
  lemma {:induction false} CleanOpened(t: string, line: nat, sc: Scanner)
    requires !sc.quoted && !sc.escaped && !sc.comment && sc.val == "" && Opens(t) && QuotesOk(t, false)
    ensures AllClean(Scan(t, line, sc))
    decreases |t|, 0
  {
    var s, rest :| Opening(s, rest, t);
    QuotedText(s, rest);
    var e := Feed('"', line, sc);
    assert !e.token && e.sc.quoted && e.sc.val == "" && !e.sc.escaped;
    if BackslashesPair(s, false) {
      CleanPaired(s, rest, line, e.sc);
    } else {
      CleanUnpaired(s, rest, line, e.sc);
    }
  }

  lemma {:induction false} CleanPaired(s: string, rest: string, line: nat, sc: Scanner)
    requires sc.quoted && !sc.escaped && sc.val == "" && NeedsQuotes(s) && BackslashesPair(s, false)
    requires QuotesOk(Escaped(s) + "\"" + rest, false)
    ensures AllClean(Scan(Escaped(s) + "\"" + rest, line, sc))
    decreases |Escaped(s) + "\"" + rest|, 0
  {
    QuotedRun(s, rest, line, sc);
    assert Held(sc) + s == s;
    var a := Escaped(s) + "\"";
    assert (a + rest)[|a|..] == rest && (a + rest)[|a| - 1] == '"';
    QuotesSuffix(a + rest, false, |a|);
    CleanUnquoted(rest, line + Breaks(s), FRESH, false);
  }

  /** A plain string with an unpaired backslash: the token ends early, or takes in a quote character. */
  lemma {:induction false} CleanUnpaired(s: string, rest: string, line: nat, sc: Scanner)
    requires sc.quoted && Plain(sc.val) && Plain(s) && !BackslashesPair(s, sc.escaped)
    requires QuotesOk(Escaped(s) + "\"" + rest, sc.escaped)
    ensures AllClean(Scan(Escaped(s) + "\"" + rest, line, sc))
    decreases |Escaped(s) + "\"" + rest|, 0
  {
    var t := Escaped(s) + "\"" + rest;
    if s == "" {
      assert t[0] == '"' && t[1..] == rest;
      TakesQuote(rest, line, sc);
    } else {
      var tail := Escaped(s[1..]) + "\"" + rest;
      if s[0] == '"' {
        var u := "\"" + tail;
        assert t[0] == '\\' && t[1..] == u && u[0] == '"' && u[1..] == tail;
        if sc.escaped {
          assert Scan(t, line, sc) == [Token(sc.start, sc.val + "\\" + "\\")] + Scan(tail, line, FRESH);
          CleanUnquoted(tail, line, FRESH, false);
        } else {
          TakesQuote(tail, line, sc);
        }
      } else {
        assert t[0] == s[0] && t[1..] == tail;
        var e := Feed(s[0], line, sc);
        CleanUnpaired(s[1..], rest, e.line, e.sc);
      }
    }
  }

  lemma {:induction false} TakesQuote(t: string, line: nat, sc: Scanner)
    requires sc.quoted && QuotesOk(t, false)
    ensures AllClean(Scan(t, line, sc.(val := sc.val + ['"'], escaped := false)))
    decreases |t|, 2
  {
    var val := sc.val + ['"'];
    assert ForcesQuotes(val[|sc.val|]);
    CleanQuoted(t, line, sc.(val := val, escaped := false), false);
  }

  // ----- a block that came back was read in step -----

  ghost predicate StringsClean(strings: set<string>) {
    forall s :: s in strings ==> Clean(s)
  }

  /** The tokens behind c are those of the text. */
  ghost predicate InStep(ts: seq<Token>, c: nat, text: string, line: nat) {
    c < |ts| && ts[c + 1..] == Scan(text, line, FRESH)
  }

  lemma {:induction false} Advance(ts: seq<Token>, c: nat, x: Token, text: string, line: nat)
    requires c < |ts| && ts[c + 1..] == [x] + Scan(text, line, FRESH)
    ensures c + 1 < |ts| && ts[c + 1] == x && InStep(ts, c + 1, text, line)
  {
    assert ts[c + 1..][0] == ts[c + 1] && ts[c + 1..][1..] == ts[c + 2..];
  }

  lemma {:induction false} TextInStep(ts: seq<Token>, c: nat, s: string, rest: string, line: nat)
    requires InStep(ts, c, PrintText(s) + rest, line) && Clean(s) && EndsToken(rest)
    requires c + 1 < |ts| && ts[c + 1].text == s
    ensures SafeText(s) && InStep(ts, c + 1, rest, line + Breaks(s))
  {
    assert ts[c + 1..][0] == ts[c + 1];
    if !SafeText(s) {
      UnsafeQuotedDiffers(s, rest, line);
      assert false;
    }
    TextComesBack(s, rest, line);
    Advance(ts, c, Token(line, s), rest, line + Breaks(s));
  }

  /** The first element of a line, a string, and the separator behind it. */
  lemma {:induction false} HeadInStep(ts: seq<Token>, c: nat, s: string, tail: List<Value>, depth: nat, lead: string, rest: string, line: nat)
    requires depth > 0 && InStep(ts, c, PrintLine(Cons(Text(s), tail), depth, lead) + rest, line) && Clean(s) && EndsToken(rest)
    requires c + 1 < |ts| && ts[c + 1].text == s
    ensures SafeText(s) && InStep(ts, c + 1, PrintLine(tail, depth, lead) + rest, line + Breaks(s))
  {
    var more := PrintLine(tail, depth, lead) + rest;
    if tail.Nil? {
      assert PrintLine(Cons(Text(s), tail), depth, lead) == PrintText(s) && more == rest;
      TextInStep(ts, c, s, rest, line);
    } else {
      assert PrintText(s) + " " + PrintLine(tail, depth, lead) + rest == PrintText(s) + ([' '] + more);
      TextInStep(ts, c, s, [' '] + more, line);
      SkipBlank(' ', more, line + Breaks(s));
    }
  }

  lemma {:induction false} OpenInStep(ts: seq<Token>, c: nat, lead: string, more: string, line: nat)
    requires (lead == "" || lead == " ") && InStep(ts, c, lead + "{\n" + more, line)
    ensures c + 1 < |ts| && InStep(ts, c + 1, more, line + 1)
  {
    OpenScans(lead, more, line);
    Advance(ts, c, Token(line, "{"), more, line + 1);
  }

  lemma {:induction false} OpenScans(lead: string, more: string, line: nat)
    requires lead == "" || lead == " "
    ensures Scan(lead + "{\n" + more, line, FRESH) == [Token(line, "{")] + Scan(more, line + 1, FRESH)
  {
    var ts := Scan(more, line + 1, FRESH);
    assert more + "" == more && ts + Scan("", 0, FRESH) == ts;
    OpenThenMore(lead, more, "", line, ts, 0);
    assert lead + "{\n" + more + "" == lead + "{\n" + more;
    assert [Token(line, "{")] + ts + Scan("", 0, FRESH) == [Token(line, "{")] + ts;
  }

  /** What can follow a closing brace: a separator, or a character that becomes part of its token. */
  predicate Follows(rest: string) {
    EndsToken(rest) || PlainChar(rest[0])
  }

  lemma {:induction false} CloseInStep(ts: seq<Token>, c: nat, depth: nat, lead: string, rest: string, line: nat)
    requires depth > 0 && InStep(ts, c, PrintBody(Nil, depth, lead) + rest, line) && Follows(rest)
    requires BlockFrom(ts, c).value == Nil
    ensures EndsToken(rest) && InStep(ts, BlockFrom(ts, c).cursor, rest, line)
  {
    assert Tabs(depth - 1) + "}" + rest == Tabs(depth - 1) + (['}'] + rest);
    SkipTabs(depth - 1, ['}'] + rest, line);
    if EndsToken(rest) {
      BraceComesBack('}', rest, line);
      Advance(ts, c, Token(line, "}"), rest, line);
    } else {
      GluedBrace(rest, line);
      FirstBehind(ts, c);
      assert false;
    }
  }

  lemma {:induction false} FirstBehind(ts: seq<Token>, c: nat)
    requires c < |ts| && ts[c + 1..] != []
    ensures c + 1 < |ts| && ts[c + 1] == ts[c + 1..][0]
  {
  }

  lemma {:induction false} GluedBrace(rest: string, line: nat)
    requires rest != "" && PlainChar(rest[0])
    ensures var r := Scan(['}'] + rest, line, FRESH); r != [] && r[0].text != "}"
  {
    var sc := FRESH.(start := line, val := "}");
    assert (['}'] + rest)[1..] == rest && "" + ['}'] == "}";
    assert Scan(['}'] + rest, line, FRESH) == Scan(rest, line, sc);
    var e := Feed(rest[0], line, sc);
    assert |e.sc.val| == 2;
    TokenGrows(rest[1..], e.line, e.sc);
  }

  lemma {:induction false} FirstChar(vs: List<Value>, depth: nat, rest: string)
    requires depth > 0 && vs.Cons? && StringsClean(Strings(vs))
    ensures var t := PrintLine(vs, depth, "") + rest; t != "" && PlainChar(t[0])
  {
    if vs.head.Text? {
      assert vs.head.s in Strings(vs);
    } else {
      assert (("" + "{\n")[0]) == '{';
    }
  }

  /** The tokens behind c are those of the printed elements, and are read as them. */
  ghost predicate ArgsBack(ts: seq<Token>, c: nat, args: List<Value>, depth: nat, lead: string, rest: string, line: nat) {
    && depth > 0 && (lead == "" || lead == " ") && EndsToken(rest) && StringsClean(Strings(args))
    && InStep(ts, c, PrintLine(args, depth, lead) + rest, line) && LineRest(ts, c).value == args
  }

  /** The elements are safe, and their text was read in step. */
  ghost predicate ArgsKept(ts: seq<Token>, c: nat, args: List<Value>, lead: string, rest: string, line: nat) {
    c < |ts| && SafeArgs(args, lead) && InStep(ts, LineRest(ts, c).cursor, rest, line + LineBreaks(args))
  }

  ghost predicate BlockBack(ts: seq<Token>, c: nat, ls: List<List<Value>>, depth: nat, lead: string, rest: string, line: nat) {
    && depth > 0 && (lead == "" || lead == " ") && Follows(rest) && StringsClean(BlockStrings(ls))
    && InStep(ts, c, PrintBody(ls, depth, lead) + rest, line) && BlockFrom(ts, c).value == ls
  }

  ghost predicate BlockKept(ts: seq<Token>, c: nat, ls: List<List<Value>>, lead: string, rest: string, line: nat) {
    c < |ts| && SafeLines(ls, lead) && EndsToken(rest) && InStep(ts, BlockFrom(ts, c).cursor, rest, line + LinesBreaks(ls))
  }

  lemma {:induction false} ArgsInStep(ts: seq<Token>, c: nat, args: List<Value>, depth: nat, lead: string, rest: string, line: nat)
    requires ArgsBack(ts, c, args, depth, lead, rest, line)
    ensures ArgsKept(ts, c, args, lead, rest, line)
    decreases args, 0
  {
    match args {
      case Nil =>
        NothingKept(ts, c, depth, lead, rest, line);
      case Cons(Text(s), tail) =>
        TextBack(ts, c, s, tail, depth, lead, rest, line);
        ArgsInStep(ts, c + 1, tail, depth, lead, rest, line + Breaks(s));
        TextKept(ts, c, s, tail, lead, rest, line);
      case Cons(Block(lines), tail) =>
        NestedBack(ts, c, lines, tail, depth, lead, rest, line);
        BlockInStep(ts, c + 1, lines, depth, lead, BehindBlock(tail, depth, lead, rest), line + 1);
        var e, close := BehindBack(ts, c, lines, tail, depth, lead, rest, line);
        ArgsInStep(ts, e, tail, depth, lead, rest, close);
        NestedKept(ts, c, lines, tail, lead, rest, line, e, close);
    }
  }

  /** The block is safe, and the elements behind it follow token e. */
  ghost predicate NestedDone(ts: seq<Token>, c: nat, lines: List<List<Value>>, tail: List<Value>, lead: string, e: nat) {
    && c < |ts| && e < |ts| && SafeLines(lines, lead) && (tail.Nil? || lead == " ")
    && LineRest(ts, c).cursor == LineRest(ts, e).cursor
  }

  lemma {:induction false} TextBack(ts: seq<Token>, c: nat, s: string, tail: List<Value>, depth: nat, lead: string, rest: string, line: nat)
    requires ArgsBack(ts, c, Cons(Text(s), tail), depth, lead, rest, line)
    ensures c + 1 < |ts| && SafeText(s) && s != "{" && LineRest(ts, c).cursor == LineRest(ts, c + 1).cursor
    ensures ArgsBack(ts, c + 1, tail, depth, lead, rest, line + Breaks(s))
  {
    StringsOfText(s, tail);
    TextRead(ts, c, s, tail);
    HeadInStep(ts, c, s, tail, depth, lead, rest, line);
  }

  lemma {:induction false} NestedBack(ts: seq<Token>, c: nat, lines: List<List<Value>>, tail: List<Value>, depth: nat, lead: string, rest: string, line: nat)
    requires ArgsBack(ts, c, Cons(Block(lines), tail), depth, lead, rest, line)
    ensures BlockBack(ts, c + 1, lines, depth, lead, BehindBlock(tail, depth, lead, rest), line + 1)
  {
    StringsOfBlock(lines, tail);
    BlockRead(ts, c, lines, tail);
    GapFollows(tail, depth, lead, rest);
    OpensInStep(ts, c, lines, tail, depth, lead, rest, line);
  }

  lemma {:induction false} BehindBack(ts: seq<Token>, c: nat, lines: List<List<Value>>, tail: List<Value>, depth: nat, lead: string, rest: string, line: nat)
    returns (e: nat, close: nat)
    requires ArgsBack(ts, c, Cons(Block(lines), tail), depth, lead, rest, line)
    requires BlockKept(ts, c + 1, lines, lead, BehindBlock(tail, depth, lead, rest), line + 1)
    ensures close == line + 1 + LinesBreaks(lines) && NestedDone(ts, c, lines, tail, lead, e)
    ensures ArgsBack(ts, e, tail, depth, lead, rest, close)
  {
    StringsOfBlock(lines, tail);
    BlockRead(ts, c, lines, tail);
    GapFollows(tail, depth, lead, rest);
    BehindInStep(ts, c + 1, lines, tail, depth, lead, rest, line + 1);
    e, close := BlockFrom(ts, c + 1).cursor, line + 1 + LinesBreaks(lines);
  }

  lemma {:induction false} NothingKept(ts: seq<Token>, c: nat, depth: nat, lead: string, rest: string, line: nat)
    requires depth > 0 && InStep(ts, c, PrintLine(Nil, depth, lead) + rest, line) && LineRest(ts, c).value == Nil
    ensures ArgsKept(ts, c, Nil, lead, rest, line)
  {
    assert "" + rest == rest;
  }

  lemma {:induction false} TextKept(ts: seq<Token>, c: nat, s: string, tail: List<Value>, lead: string, rest: string, line: nat)
    requires c + 1 < |ts| && SafeText(s) && s != "{" && LineRest(ts, c).cursor == LineRest(ts, c + 1).cursor
    requires ArgsKept(ts, c + 1, tail, lead, rest, line + Breaks(s))
    ensures ArgsKept(ts, c, Cons(Text(s), tail), lead, rest, line)
  {
  }

  lemma {:induction false} NestedKept(ts: seq<Token>, c: nat, lines: List<List<Value>>, tail: List<Value>, lead: string, rest: string, line: nat,
                                      e: nat, close: nat)
    requires close == line + 1 + LinesBreaks(lines) && NestedDone(ts, c, lines, tail, lead, e) && ArgsKept(ts, e, tail, lead, rest, close)
    ensures ArgsKept(ts, c, Cons(Block(lines), tail), lead, rest, line)
  {
  }

  lemma {:induction false} BehindInStep(ts: seq<Token>, c: nat, lines: List<List<Value>>, tail: List<Value>, depth: nat, lead: string, rest: string, line: nat)
    requires depth > 0 && (lead == "" || lead == " ") && BlockKept(ts, c, lines, lead, BehindBlock(tail, depth, lead, rest), line)
    ensures InStep(ts, BlockFrom(ts, c).cursor, PrintLine(tail, depth, lead) + rest, line + LinesBreaks(lines))
  {
    GapSkipped(tail, depth, lead, rest, line + LinesBreaks(lines));
  }

  lemma {:induction false} StringsOfText(s: string, tail: List<Value>)
    requires StringsClean(Strings(Cons(Text(s), tail)))
    ensures Clean(s) && StringsClean(Strings(tail))
  {
    assert s in Strings(Cons(Text(s), tail));
  }

  lemma {:induction false} StringsOfBlock(lines: List<List<Value>>, tail: List<Value>)
    requires StringsClean(Strings(Cons(Block(lines), tail)))
    ensures StringsClean(BlockStrings(lines)) && StringsClean(Strings(tail))
  {
  }

  lemma {:induction false} TextRead(ts: seq<Token>, c: nat, s: string, tail: List<Value>)
    requires c < |ts| && LineRest(ts, c).value == Cons(Text(s), tail)
    ensures c + 1 < |ts| && ts[c + 1].text == s && s != "{"
    ensures LineRest(ts, c + 1) == Parsed(tail, LineRest(ts, c).cursor)
  {
  }

  lemma {:induction false} BlockRead(ts: seq<Token>, c: nat, lines: List<List<Value>>, tail: List<Value>)
    requires c < |ts| && LineRest(ts, c).value == Cons(Block(lines), tail)
    ensures c + 1 < |ts| && BlockFrom(ts, c + 1).value == lines
    ensures LineRest(ts, BlockFrom(ts, c + 1).cursor) == Parsed(tail, LineRest(ts, c).cursor)
  {
  }

  lemma {:induction false} LineRead(ts: seq<Token>, c: nat, l: List<Value>, tail: List<List<Value>>)
    requires c < |ts| && BlockFrom(ts, c).value == Cons(l, tail)
    ensures c + 1 < |ts| && ts[c + 1].text != "}" && l == Cons(Text(ts[c + 1].text), LineRest(ts, c + 1).value)
    ensures BlockFrom(ts, LineRest(ts, c + 1).cursor) == Parsed(tail, BlockFrom(ts, c).cursor)
  {
  }

  /** What is printed behind the closing brace of a block. */
  function BehindBlock(tail: List<Value>, depth: nat, lead: string, rest: string): string
    requires depth > 0
  {
    (if tail.Nil? then "" else lead) + (PrintLine(tail, depth, lead) + rest)
  }

  lemma {:induction false} OpensInStep(ts: seq<Token>, c: nat, lines: List<List<Value>>, tail: List<Value>, depth: nat, lead: string, rest: string, line: nat)
    requires depth > 0 && (lead == "" || lead == " ")
    requires InStep(ts, c, PrintLine(Cons(Block(lines), tail), depth, lead) + rest, line)
    ensures InStep(ts, c + 1, PrintBody(lines, depth, lead) + BehindBlock(tail, depth, lead, rest), line + 1)
  {
    var body, gap := PrintBody(lines, depth, lead), if tail.Nil? then "" else lead;
    Nests(lead + "{\n", body, gap, PrintLine(tail, depth, lead), rest);
    OpenInStep(ts, c, lead, body + BehindBlock(tail, depth, lead, rest), line);
  }

  lemma {:induction false} GapSkipped(tail: List<Value>, depth: nat, lead: string, rest: string, line: nat)
    requires depth > 0 && (lead == "" || lead == " ")
    ensures Scan(BehindBlock(tail, depth, lead, rest), line, FRESH) == Scan(PrintLine(tail, depth, lead) + rest, line, FRESH)
  {
    SkipGap(if tail.Nil? then "" else lead, PrintLine(tail, depth, lead) + rest, line);
  }

  lemma {:induction false} SkipGap(gap: string, more: string, line: nat)
    requires gap == "" || gap == " "
    ensures Scan(gap + more, line, FRESH) == Scan(more, line, FRESH)
  {
    if gap == "" {
      assert gap + more == more;
    } else {
      SkipBlank(' ', more, line);
    }
  }

  /** Without a space a block and the next element touch. */
  lemma {:induction false} GapFollows(tail: List<Value>, depth: nat, lead: string, rest: string)
    requires depth > 0 && (lead == "" || lead == " ") && EndsToken(rest) && StringsClean(Strings(tail))
    ensures var t := BehindBlock(tail, depth, lead, rest);
            Follows(t) && (EndsToken(t) ==> tail.Nil? || lead == " ")
  {
    var more := PrintLine(tail, depth, lead) + rest;
    if tail.Nil? {
      assert "" + more == rest;
    } else if lead == "" {
      FirstChar(tail, depth, rest);
      assert "" + more == more;
    }
  }

  lemma {:induction false} BlockInStep(ts: seq<Token>, c: nat, ls: List<List<Value>>, depth: nat, lead: string, rest: string, line: nat)
    requires BlockBack(ts, c, ls, depth, lead, rest, line)
    ensures BlockKept(ts, c, ls, lead, rest, line)
    decreases ls, 1
  {
    match ls {
      case Nil =>
        NoLineKept(ts, c, depth, lead, rest, line);
      case Cons(l, tail) =>
        var e, next := LineInStep(ts, c, l, tail, depth, lead, rest, line);
        BlockInStep(ts, e, tail, depth, lead, rest, next);
        LineKept(ts, c, l, tail, lead, rest, line, e, next);
    }
  }

  lemma {:induction false} LineInStep(ts: seq<Token>, c: nat, l: List<Value>, tail: List<List<Value>>, depth: nat, lead: string, rest: string, line: nat)
    returns (e: nat, next: nat)
    requires BlockBack(ts, c, Cons(l, tail), depth, lead, rest, line)
    ensures next == line + LineBreaks(l) + 1 && LineDone(ts, c, l, lead, e)
    ensures BlockBack(ts, e, tail, depth, lead, rest, next)
    decreases l, 1
  {
    var s, args, more := LineBack(ts, c, l, tail, depth, lead, rest, line);
    ArgsInStep(ts, c + 1, args, depth + 1, lead, more, line + Breaks(s));
    e, next := LinesBack(ts, c, s, args, tail, depth, lead, rest, line, more);
  }

  /** The line is safe, and the rest of the block follows behind e. */
  ghost predicate LineDone(ts: seq<Token>, c: nat, l: List<Value>, lead: string, e: nat) {
    c < |ts| && e < |ts| && SafeLine(l, lead) && BlockFrom(ts, c).cursor == BlockFrom(ts, e).cursor
  }

  lemma {:induction false} NoLineKept(ts: seq<Token>, c: nat, depth: nat, lead: string, rest: string, line: nat)
    requires BlockBack(ts, c, Nil, depth, lead, rest, line)
    ensures BlockKept(ts, c, Nil, lead, rest, line)
  {
    CloseInStep(ts, c, depth, lead, rest, line);
  }

  /** What is printed behind a line of a block. */
  ghost predicate BehindLine(tail: List<List<Value>>, depth: nat, lead: string, rest: string, more: string) {
    depth > 0 && more == ['\n'] + (PrintBody(tail, depth, lead) + rest)
  }

  lemma {:induction false} LineBack(ts: seq<Token>, c: nat, l: List<Value>, tail: List<List<Value>>, depth: nat, lead: string, rest: string, line: nat)
    returns (s: string, args: List<Value>, more: string)
    requires BlockBack(ts, c, Cons(l, tail), depth, lead, rest, line)
    ensures l == Cons(Text(s), args) && SafeText(s) && s != "}" && BehindLine(tail, depth, lead, rest, more)
    ensures ArgsBack(ts, c + 1, args, depth + 1, lead, more, line + Breaks(s))
  {
    LineRead(ts, c, l, tail);
    s, args, more := l.head.s, l.tail, ['\n'] + (PrintBody(tail, depth, lead) + rest);
    LineStarts(ts, c, l, depth, lead, more, line, tail, rest);
    StringsOfLine(l, tail);
    HeadInStep(ts, c, s, args, depth + 1, lead, more, line);
  }

  lemma {:induction false} LinesBack(ts: seq<Token>, c: nat, s: string, args: List<Value>, tail: List<List<Value>>, depth: nat, lead: string,
                                     rest: string, line: nat, more: string)
    returns (e: nat, next: nat)
    requires BlockBack(ts, c, Cons(Cons(Text(s), args), tail), depth, lead, rest, line) && BehindLine(tail, depth, lead, rest, more)
    requires SafeText(s) && s != "}" && ArgsKept(ts, c + 1, args, lead, more, line + Breaks(s))
    ensures next == line + LineBreaks(Cons(Text(s), args)) + 1 && LineDone(ts, c, Cons(Text(s), args), lead, e)
    ensures BlockBack(ts, e, tail, depth, lead, rest, next)
  {
    var l := Cons(Text(s), args);
    LineRead(ts, c, l, tail);
    StringsOfLine(l, tail);
    e, next := LineRest(ts, c + 1).cursor, line + Breaks(s) + LineBreaks(args) + 1;
    LineEnds(ts, c + 1, args, tail, depth, lead, rest, more, line + Breaks(s), e, next);
  }

  lemma {:induction false} StringsOfLine(l: List<Value>, tail: List<List<Value>>)
    requires l.Cons? && l.head.Text? && StringsClean(BlockStrings(Cons(l, tail)))
    ensures Clean(l.head.s) && StringsClean(Strings(l.tail)) && StringsClean(BlockStrings(tail))
  {
    assert l.head.s in Strings(l);
  }

  lemma {:induction false} LineEnds(ts: seq<Token>, c: nat, args: List<Value>, tail: List<List<Value>>, depth: nat, lead: string,
                                    rest: string, more: string, line: nat, e: nat, next: nat)
    requires ArgsKept(ts, c, args, lead, more, line) && BehindLine(tail, depth, lead, rest, more)
    requires e == LineRest(ts, c).cursor && next == line + LineBreaks(args) + 1
    ensures InStep(ts, e, PrintBody(tail, depth, lead) + rest, next)
  {
    SkipBlank('\n', PrintBody(tail, depth, lead) + rest, line + LineBreaks(args));
  }

  lemma {:induction false} LineKept(ts: seq<Token>, c: nat, l: List<Value>, tail: List<List<Value>>, lead: string, rest: string, line: nat,
                                    e: nat, next: nat)
    requires next == line + LineBreaks(l) + 1 && LineDone(ts, c, l, lead, e) && BlockKept(ts, e, tail, lead, rest, next)
    ensures BlockKept(ts, c, Cons(l, tail), lead, rest, line)
  {
  }

  lemma {:induction false} LineStarts(ts: seq<Token>, c: nat, l: List<Value>, depth: nat, lead: string, more: string, line: nat,
                                      tail: List<List<Value>>, rest: string)
    requires depth > 0 && more == ['\n'] + (PrintBody(tail, depth, lead) + rest)
    requires InStep(ts, c, PrintBody(Cons(l, tail), depth, lead) + rest, line)
    ensures InStep(ts, c, PrintLine(l, depth + 1, lead) + more, line)
  {
    Nests(Tabs(depth), PrintLine(l, depth + 1, lead), "\n", PrintBody(tail, depth, lead), rest);
    SkipTabs(depth, PrintLine(l, depth + 1, lead) + more, line);
  }

  // ----- the exact round trip -----

  /** The strings of a block that came back are tokens of its printed text. */
  lemma {:induction false} StringsOfCopy(ls: List<List<Value>>, depth: nat, lead: string, line: nat)
    requires depth > 0 && (lead == "" || lead == " ")
    requires var ts := Scan(PrintBlock(ls, depth, lead), line, FRESH);
             ts != [] && BlockFrom(ts, 0).value == ls
    ensures StringsClean(BlockStrings(ls))
  {
    var text := PrintBlock(ls, depth, lead);
    var ts := Scan(text, line, FRESH);
    BlockStringsHad(ts, 0);
    TokensLexed(text, line, FRESH);
    BodyQuotes(ls, depth, lead, "");
    var body := PrintBody(ls, depth, lead);
    assert body + "" == body;
    NoQuotes(" {\n", body, false);
    CleanUnquoted(text, line, FRESH, false);
  }

  /** Printed on its own, a block is read back as the same lines if and only if its lines are safe. */
  lemma {:induction false} BlockComesBackExactly(ls: List<List<Value>>, depth: nat, lead: string, line: nat)
    requires depth > 0 && (lead == "" || lead == " ")
    ensures var ts := Scan(PrintBlock(ls, depth, lead), line, FRESH);
            ts != [] && (BlockFrom(ts, 0).value == ls <==> SafeLines(ls, lead))
  {
    var ts := Scan(PrintBlock(ls, depth, lead), line, FRESH);
    var body := PrintBody(ls, depth, lead);
    OpenScans(" ", body, line);
    assert " " + "{\n" + body == PrintBlock(ls, depth, lead);
    if SafeLines(ls, lead) {
      BlockComesBack(ls, depth, lead, [], line, "");
      assert PrintBlock(ls, depth, lead) + "" == PrintBlock(ls, depth, lead) && [] + ts == ts;
    }
    if BlockFrom(ts, 0).value == ls {
      StringsOfCopy(ls, depth, lead, line);
      assert ts[0 + 1..] == Scan(body, line + 1, FRESH) && body + "" == body;
      BlockInStep(ts, 0, ls, depth, lead, "", line + 1);
    }
  }

  /** Print, lex and regroup. */
  method PrintAndRead(ls: List<List<Value>>, lead: string) returns (back: List<List<Value>>)
    requires lead == "" || lead == " "
    ensures back == ls <==> SafeLines(ls, lead)
  {
    var text := PrintBlock(ls, 1, lead);
    var tokens := AllTokens(text);
    BlockComesBackExactly(ls, 1, lead, 1);
    assert text[0] == ' ';
    var d := new Dispenser(tokens);
    var _ := d.Next();
    back := d.ConstructBlock();
  }
}
