/** Printing a block as Caddyfile text (jsonToText of caddyfile/json.go) and reading it back. */
module CaddyRoundTrip {
  import opened Basics
  import opened CaddyLexer
  import opened CaddyDispenser

  // ----- the printer -----

  function Tabs(n: nat): string {
    if n == 0 then "" else "\t" + Tabs(n - 1)
  }

  /** Characters that make the printer use quotes. */
  predicate ForcesQuotes(c: char) {
    c == '"' || c == ' ' || c == '\n' || c == '\t' || c == '\r'
  }

  predicate NeedsQuotes(s: string) {
    exists i :: 0 <= i < |s| && ForcesQuotes(s[i])
  }

  function Escaped(s: string): string {
    if s == "" then "" else (if s[0] == '"' then "\\\"" else [s[0]]) + Escaped(s[1..])
  }

  function PrintText(s: string): string {
    if NeedsQuotes(s) then "\"" + Escaped(s) + "\"" else s
  }

  /** A line. Around a nested block stands lead: nothing when the values come from JSON, a space when they
  come from ConstructBlock. */
  function PrintLine(vs: List<Value>, depth: nat, lead: string): string
    requires depth > 0
  {
    match vs
    case Nil => ""
    case Cons(Text(s), rest) => PrintText(s) + (if rest.Nil? then "" else " ") + PrintLine(rest, depth, lead)
    case Cons(Block(lines), rest) =>
      lead + "{\n" + PrintBody(lines, depth, lead) + (if rest.Nil? then "" else lead) + PrintLine(rest, depth, lead)
  }

  /** The lines of a block, each indented and ended, and its closing brace. */
  function PrintBody(ls: List<List<Value>>, depth: nat, lead: string): string
    requires depth > 0
  {
    match ls
    case Nil => Tabs(depth - 1) + "}"
    case Cons(l, rest) => Tabs(depth) + PrintLine(l, depth + 1, lead) + "\n" + PrintBody(rest, depth, lead)
  }

  /** A block, as it follows the keys of a server block. */
  function PrintBlock(ls: List<List<Value>>, depth: nat, lead: string): string
    requires depth > 0
  {
    " {\n" + PrintBody(ls, depth, lead)
  }

  // ----- strings that survive -----

  /** In quotes a backslash pairs up with a following backslash. Before a quote character, and at the
  end, none may be left over. */
  predicate BackslashesPair(s: string, odd: bool) {
    if s == "" then !odd
    else if s[0] == '\\' then BackslashesPair(s[1..], !odd)
    else if s[0] == '"' then !odd && BackslashesPair(s[1..], false)
    else BackslashesPair(s[1..], false)
  }

  predicate PlainChar(c: char) {
    !IsSpace(c) && c != '#'
  }

  predicate SafeText(s: string) {
    if NeedsQuotes(s) then BackslashesPair(s, false)
    else s != "" && forall i :: 0 <= i < |s| ==> PlainChar(s[i])
  }

  /** Elements behind the first: safe strings other than an opening brace, and blocks. Without a space
  around it, a block must come last. */
  predicate SafeArgs(vs: List<Value>, lead: string) {
    match vs
    case Nil => true
    case Cons(Text(s), rest) => SafeText(s) && s != "{" && SafeArgs(rest, lead)
    case Cons(Block(lines), rest) => (rest.Nil? || lead == " ") && SafeLines(lines, lead) && SafeArgs(rest, lead)
  }

  /** A line starts with a safe string other than a closing brace. */
  predicate SafeLine(vs: List<Value>, lead: string) {
    vs.Cons? && vs.head.Text? && SafeText(vs.head.s) && vs.head.s != "}" && SafeArgs(vs.tail, lead)
  }

  predicate SafeLines(ls: List<List<Value>>, lead: string) {
    match ls
    case Nil => true
    case Cons(l, rest) => SafeLine(l, lead) && SafeLines(rest, lead)
  }

  // ----- lexing printed strings -----

  /** A text in front of which a token ends. */
  predicate EndsToken(rest: string) {
    rest == "" || (IsSpace(rest[0]) && rest[0] != '\r')
  }

  lemma {:induction false} PlainRun(s: string, rest: string, line: nat, sc: Scanner)
    requires !sc.quoted && !sc.comment && sc.val != "" && EndsToken(rest)
    requires forall i :: 0 <= i < |s| ==> PlainChar(s[i])
    ensures Scan(s + rest, line, sc) == [Token(sc.start, sc.val + s)] + Scan(rest, line, FRESH)
    decreases |s|
  {
    if s == "" {
      assert s + rest == rest && sc.val + s == sc.val;
    } else {
      assert (s + rest)[0] == s[0] && (s + rest)[1..] == s[1..] + rest;
      PlainRun(s[1..], rest, line, sc.(val := sc.val + [s[0]]));
      assert sc.val + [s[0]] + s[1..] == sc.val + s;
    }
  }

  /** What a quoted scanner has read, a pending backslash included. */
  function Held(sc: Scanner): string {
    if sc.escaped then sc.val + "\\" else sc.val
  }

  lemma {:induction false} QuotedRun(s: string, rest: string, line: nat, sc: Scanner)
    requires sc.quoted && BackslashesPair(s, sc.escaped)
    ensures Scan(Escaped(s) + "\"" + rest, line, sc)
         == [Token(sc.start, Held(sc) + s)] + Scan(rest, line + Breaks(s), FRESH)
    decreases |s|
  {
    var t := Escaped(s) + "\"" + rest;
    if s == "" {
      assert t == "\"" + rest && t[1..] == rest && sc.val + s == sc.val;
    } else {
      var tail := Escaped(s[1..]) + "\"" + rest;
      var c := s[0];
      if c == '"' {
        assert t[0] == '\\' && t[1..] == "\"" + tail && ("\"" + tail)[1..] == tail;
        QuotedRun(s[1..], rest, line, sc.(val := sc.val + [c], escaped := false));
        assert sc.val + [c] + s[1..] == sc.val + s;
      } else {
        assert t[0] == c && t[1..] == tail;
        var e := Feed(c, line, sc);
        QuotedRun(s[1..], rest, e.line, e.sc);
        assert Held(e.sc) == Held(sc) + [c];
        assert Held(sc) + [c] + s[1..] == Held(sc) + s;
      }
    }
  }

  lemma {:induction false} QuotedComesBack(s: string, rest: string, line: nat)
    requires NeedsQuotes(s) && BackslashesPair(s, false)
    ensures Scan(PrintText(s) + rest, line, FRESH) == [Token(line, s)] + Scan(rest, line + Breaks(s), FRESH)
  {
    OpensQuote(s, rest, line);
    QuotedRun(s, rest, line, FRESH.(start := line, quoted := true));
    assert "" + s == s;
  }

  /** The opening quote of a printed string starts a quoted token. */
  lemma {:induction false} OpensQuote(s: string, rest: string, line: nat)
    requires NeedsQuotes(s)
    ensures Scan(PrintText(s) + rest, line, FRESH) == Scan(Escaped(s) + "\"" + rest, line, FRESH.(start := line, quoted := true))
  {
    var t := PrintText(s) + rest;
    QuotedText(s, rest);
    var e := Feed('"', line, FRESH);
    assert !e.token && e.line == line && e.sc == FRESH.(start := line, quoted := true);
  }

  lemma {:induction false} QuotedText(s: string, rest: string)
    requires NeedsQuotes(s)
    ensures var t := PrintText(s) + rest; t != "" && t[0] == '"' && t[1..] == Escaped(s) + "\"" + rest
  {
    assert PrintText(s) == "\"" + Escaped(s) + "\"";
    WithoutFirst('"', Escaped(s), "\"", rest);
  }

  lemma {:induction false} WithoutFirst(c: char, a: string, b: string, rest: string)
    ensures var t := [c] + a + b + rest; t[0] == c && t[1..] == a + b + rest
  {
    var t := [c] + a + b + rest;
    assert t == [c] + (a + b + rest);
  }

  lemma {:induction false} PlainComesBack(s: string, rest: string, line: nat)
    requires s != "" && s[0] != '"' && (forall i :: 0 <= i < |s| ==> PlainChar(s[i])) && EndsToken(rest)
    ensures Scan(s + rest, line, FRESH) == [Token(line, s)] + Scan(rest, line, FRESH)
  {
    assert (s + rest)[0] == s[0] && (s + rest)[1..] == s[1..] + rest;
    var sc := FRESH.(start := line, val := "" + [s[0]]);
    PlainRun(s[1..], rest, line, sc);
    assert sc.val + s[1..] == s;
  }

  /** A safe string comes back as one token, whatever token separator follows. */
  lemma {:induction false} TextComesBack(s: string, rest: string, line: nat)
    requires SafeText(s) && EndsToken(rest)
    ensures Scan(PrintText(s) + rest, line, FRESH) == [Token(line, s)] + Scan(rest, line + Breaks(s), FRESH)
  {
    if NeedsQuotes(s) {
      QuotedComesBack(s, rest, line);
    } else {
      PlainComesBack(s, rest, line);
      NoBreaks(s);
    }
  }

  // ----- strings that do not survive -----

  /** Without quotes in the text, no token has a space character or a comment sign. */
  lemma {:induction false} PlainTokens(t: string, line: nat, sc: Scanner)
    requires '"' !in t && !sc.quoted && forall i :: 0 <= i < |sc.val| ==> PlainChar(sc.val[i])
    ensures forall k, i :: 0 <= k < |Scan(t, line, sc)| && 0 <= i < |Scan(t, line, sc)[k].text| ==> PlainChar(Scan(t, line, sc)[k].text[i])
    decreases |t|
  {
    if t != "" {
      var e := Feed(t[0], line, sc);
      PlainTokens(t[1..], e.line, if e.token then FRESH else e.sc);
    }
  }

  /** A token that has begun only grows. */
  lemma {:induction false} TokenGrows(t: string, line: nat, sc: Scanner)
    requires sc.val != ""
    ensures var r := Scan(t, line, sc); r != [] && sc.val <= r[0].text
    decreases |t|
  {
    if t != "" {
      var e := Feed(t[0], line, sc);
      if !e.token {
        TokenGrows(t[1..], e.line, e.sc);
      }
    }
  }

  /** In quotes, an unpaired backslash makes the first token differ from the string. */
  lemma {:induction false} QuotedDiffers(s: string, rest: string, line: nat, sc: Scanner)
    requires sc.quoted && !BackslashesPair(s, sc.escaped)
    ensures var r := Scan(Escaped(s) + "\"" + rest, line, sc);
            r == [] || r[0].text != Held(sc) + s
    decreases |s|
  {
    var t := Escaped(s) + "\"" + rest;
    if s == "" {
      assert t[0] == '"' && t[1..] == rest;
      var val := sc.val + ['"'];
      TokenGrows(rest, line, sc.(val := val, escaped := false));
      assert val[|sc.val|] == '"' && (Held(sc) + s)[|sc.val|] == '\\';
    } else {
      var tail := Escaped(s[1..]) + "\"" + rest;
      var c := s[0];
      if c == '"' {
        assert t[0] == '\\' && t[1..] == "\"" + tail && ("\"" + tail)[1..] == tail;
        if sc.escaped {
          assert (Held(sc) + s)[|Held(sc)|] == '"';
          assert (sc.val + "\\" + ['\\'])[|Held(sc)|] == '\\';
        } else {
          QuotedDiffers(s[1..], rest, line, sc.(val := sc.val + [c], escaped := false));
          assert sc.val + [c] + s[1..] == sc.val + s;
        }
      } else {
        assert t[0] == c && t[1..] == tail;
        var e := Feed(c, line, sc);
        QuotedDiffers(s[1..], rest, e.line, e.sc);
        assert Held(e.sc) == Held(sc) + [c];
        assert Held(sc) + [c] + s[1..] == Held(sc) + s;
      }
    }
  }

  lemma {:induction false} UnsafePlainDiffers(s: string, line: nat)
    requires !NeedsQuotes(s) && !SafeText(s)
    ensures Scan(PrintText(s) + "\n", line, FRESH) != [Token(line, s)]
  {
    var t := s + "\n";
    if s == "" {
      assert t[0] == '\n' && t[1..] == "";
    } else {
      var r := Scan(t, line, FRESH);
      assert r == [Token(line, s)] ==> r[0].text == s;
      PlainTokens(t, line, FRESH);
    }
  }

  lemma {:induction false} UnsafeQuotedDiffers(s: string, rest: string, line: nat)
    requires NeedsQuotes(s) && !SafeText(s)
    ensures var r := Scan(PrintText(s) + rest, line, FRESH); r == [] || r[0].text != s
  {
    OpensQuote(s, rest, line);
    QuotedDiffers(s, rest, line, FRESH.(start := line, quoted := true));
    assert "" + s == s;
  }

  /** A string printed on its own line is read back exactly when it is safe. */
  lemma {:induction false} TextComesBackExactly(s: string, line: nat)
    ensures Scan(PrintText(s) + "\n", line, FRESH) == [Token(line, s)] <==> SafeText(s)
  {
    if SafeText(s) {
      TextComesBack(s, "\n", line);
      assert Scan("\n", line + Breaks(s), FRESH) == [];
    } else if NeedsQuotes(s) {
      UnsafeQuotedDiffers(s, "\n", line);
    } else {
      UnsafePlainDiffers(s, line);
    }
  }

  lemma {:induction false} NoBreaks(s: string)
    requires forall i :: 0 <= i < |s| ==> s[i] != '\n'
    ensures Breaks(s) == 0
    decreases |s|
  {
    if s != "" {
      NoBreaks(s[1..]);
    }
  }

  // ----- lexing printed blocks -----

  /** Line breaks in a printed line and in printed lines. */
  function LineBreaks(vs: List<Value>): nat {
    match vs
    case Nil => 0
    case Cons(Text(s), rest) => Breaks(s) + LineBreaks(rest)
    case Cons(Block(lines), rest) => 1 + LinesBreaks(lines) + LineBreaks(rest)
  }

  function LinesBreaks(ls: List<List<Value>>): nat {
    match ls
    case Nil => 0
    case Cons(l, rest) => LineBreaks(l) + 1 + LinesBreaks(rest)
  }

  /** The tokens of a printed line that starts on the given line of the text. */
  function LineTokens(vs: List<Value>, line: nat): seq<Token> {
    match vs
    case Nil => []
    case Cons(Text(s), rest) => [Token(line, s)] + LineTokens(rest, line + Breaks(s))
    case Cons(Block(lines), rest) =>
      [Token(line, "{")] + BlockTokens(lines, line + 1) + LineTokens(rest, line + 1 + LinesBreaks(lines))
  }

  /** The tokens of the lines of a block and of its closing brace. */
  function BlockTokens(ls: List<List<Value>>, line: nat): seq<Token> {
    match ls
    case Nil => [Token(line, "}")]
    case Cons(l, rest) => LineTokens(l, line) + BlockTokens(rest, line + LineBreaks(l) + 1)
  }

  lemma {:induction false} ConcatNothing<T>(a: seq<T>)
    ensures a + [] == a && [] + a == a
  {
  }

  lemma {:induction false} SkipTabs(n: nat, rest: string, line: nat)
    ensures Scan(Tabs(n) + rest, line, FRESH) == Scan(rest, line, FRESH)
  {
    if n == 0 {
      assert Tabs(n) + rest == rest;
    } else {
      assert (Tabs(n) + rest)[1..] == Tabs(n - 1) + rest;
      SkipTabs(n - 1, rest, line);
    }
  }

  lemma {:induction false} SkipBlank(c: char, rest: string, line: nat)
    requires c == ' ' || c == '\n'
    ensures Scan([c] + rest, line, FRESH) == Scan(rest, line + if c == '\n' then 1 else 0, FRESH)
  {
    assert ([c] + rest)[1..] == rest;
  }

  /** A brace on its own is one token. */
  lemma {:induction false} BraceComesBack(c: char, rest: string, line: nat)
    requires (c == '{' || c == '}') && EndsToken(rest)
    ensures Scan([c] + rest, line, FRESH) == [Token(line, [c])] + Scan(rest, line, FRESH)
  {
    assert PrintText([c]) == [c];
    TextComesBack([c], rest, line);
    NoBreaks([c]);
  }

  /** text, on the given line and followed by rest, lexes to tokens and leaves the line number. */
  ghost predicate Lexes(text: string, rest: string, line: nat, tokens: seq<Token>, line': nat) {
    Scan(text + rest, line, FRESH) == tokens + Scan(rest, line', FRESH)
  }

  /** Texts that follow each other give their tokens in order. */
  lemma {:induction false} LexesConcat(a: string, b: string, rest: string, line: nat, ta: seq<Token>, line1: nat, tb: seq<Token>, line2: nat)
    requires Lexes(a, b + rest, line, ta, line1) && Lexes(b, rest, line1, tb, line2)
    ensures Lexes(a + b, rest, line, ta + tb, line2)
  {
    assert a + b + rest == a + (b + rest);
    assert ta + (tb + Scan(rest, line2, FRESH)) == ta + tb + Scan(rest, line2, FRESH);
  }

  lemma {:induction false} TabsLex(n: nat, rest: string, line: nat)
    ensures Lexes(Tabs(n), rest, line, [], line)
  {
    SkipTabs(n, rest, line);
    assert [] + Scan(rest, line, FRESH) == Scan(rest, line, FRESH);
  }

  lemma {:induction false} BlankLexes(c: char, rest: string, line: nat)
    requires c == ' ' || c == '\n'
    ensures Lexes([c], rest, line, [], line + if c == '\n' then 1 else 0)
  {
    SkipBlank(c, rest, line);
    var n := line + if c == '\n' then 1 else 0;
    assert [] + Scan(rest, n, FRESH) == Scan(rest, n, FRESH);
  }

  lemma {:induction false} EmptyLexes(rest: string, line: nat)
    ensures Lexes("", rest, line, [], line)
  {
    assert "" + rest == rest;
    assert [] + Scan(rest, line, FRESH) == Scan(rest, line, FRESH);
  }

  /** A printed line lexes to its tokens. */
  ghost predicate LineLexed(vs: List<Value>, depth: nat, lead: string, rest: string, line: nat)
    requires depth > 0
  {
    Lexes(PrintLine(vs, depth, lead), rest, line, LineTokens(vs, line), line + LineBreaks(vs))
  }

  /** The printed lines of a block, with the closing brace, lex to their tokens. */
  ghost predicate BlockLexed(lines: List<List<Value>>, depth: nat, lead: string, rest: string, line: nat)
    requires depth > 0
  {
    Lexes(PrintBody(lines, depth, lead), rest, line, BlockTokens(lines, line), line + LinesBreaks(lines))
  }

  lemma {:induction false} LineLexes(vs: List<Value>, depth: nat, lead: string, rest: string, line: nat)
    requires depth > 0 && (lead == "" || lead == " ") && (SafeArgs(vs, lead) || SafeLine(vs, lead)) && EndsToken(rest)
    ensures LineLexed(vs, depth, lead, rest, line)
    decreases vs, 0
  {
    match vs {
      case Nil =>
        EmptyLexes(rest, line);
      case Cons(Text(s), tail) =>
        if tail.Nil? {
          LoneTextLexes(s, depth, lead, rest, line);
        } else {
          LineLexes(tail, depth, lead, rest, line + Breaks(s));
          TextInLine(s, tail, depth, lead, rest, line);
        }
      case Cons(Block(lines), tail) =>
        if tail.Nil? {
          BlockLexes(lines, depth, lead, rest, line + 1);
          LoneBlockLexes(lines, depth, lead, rest, line);
        } else {
          LineLexes(tail, depth, lead, rest, line + 1 + LinesBreaks(lines));
          BlockLexes(lines, depth, lead, [' '] + (PrintLine(tail, depth, lead) + rest), line + 1);
          BlockInLine(lines, tail, depth, lead, rest, line);
        }
    }
  }

  lemma {:induction false} LoneTextLexes(s: string, depth: nat, lead: string, rest: string, line: nat)
    requires depth > 0 && SafeText(s) && EndsToken(rest)
    ensures LineLexed(Cons(Text(s), Nil), depth, lead, rest, line)
  {
    var vs := Cons(Text(s), Nil);
    assert PrintLine(vs, depth, lead) == PrintText(s);
    assert LineTokens(Nil, line + Breaks(s)) == [] && LineTokens(vs, line) == [Token(line, s)];
    assert LineBreaks(Nil) == 0;
    TextComesBack(s, rest, line);
  }

  lemma {:induction false} TextInLine(s: string, tail: List<Value>, depth: nat, lead: string, rest: string, line: nat)
    requires depth > 0 && SafeText(s) && EndsToken(rest) && tail.Cons?
    requires LineLexed(tail, depth, lead, rest, line + Breaks(s))
    ensures LineLexed(Cons(Text(s), tail), depth, lead, rest, line)
  {
    var next := line + Breaks(s);
    TextThenMore(s, PrintLine(tail, depth, lead), rest, line, LineTokens(tail, next), next + LineBreaks(tail));
  }

  lemma {:induction false} LoneBlock(lines: List<List<Value>>, depth: nat, lead: string, line: nat)
    requires depth > 0
    ensures PrintLine(Cons(Block(lines), Nil), depth, lead) == lead + "{\n" + PrintBody(lines, depth, lead)
    ensures LineTokens(Cons(Block(lines), Nil), line) == [Token(line, "{")] + BlockTokens(lines, line + 1)
    ensures LineBreaks(Cons(Block(lines), Nil)) == 1 + LinesBreaks(lines)
  {
    ConcatNothing([Token(line, "{")] + BlockTokens(lines, line + 1));
    ConcatNothing(lead + "{\n" + PrintBody(lines, depth, lead));
    ConcatNothing(lead + "{\n" + PrintBody(lines, depth, lead) + "");
  }

  lemma {:induction false} LoneBlockLexes(lines: List<List<Value>>, depth: nat, lead: string, rest: string, line: nat)
    requires depth > 0 && (lead == "" || lead == " ")
    requires BlockLexed(lines, depth, lead, rest, line + 1)
    ensures LineLexed(Cons(Block(lines), Nil), depth, lead, rest, line)
  {
    OpenThenMore(lead, PrintBody(lines, depth, lead), rest, line, BlockTokens(lines, line + 1), line + 1 + LinesBreaks(lines));
    LoneBlock(lines, depth, lead, line);
  }

  lemma {:induction false} BlockInLine(lines: List<List<Value>>, tail: List<Value>, depth: nat, lead: string, rest: string, line: nat)
    requires depth > 0 && lead == " " && tail.Cons?
    requires LineLexed(tail, depth, lead, rest, line + 1 + LinesBreaks(lines))
    requires BlockLexed(lines, depth, lead, [' '] + (PrintLine(tail, depth, lead) + rest), line + 1)
    ensures LineLexed(Cons(Block(lines), tail), depth, lead, rest, line)
  {
    var close := line + 1 + LinesBreaks(lines);
    var body, more := PrintBody(lines, depth, lead), PrintLine(tail, depth, lead);
    var ts, us := BlockTokens(lines, line + 1), LineTokens(tail, close);
    BodyThenMore(body, more, rest, line + 1, ts, close, us, close + LineBreaks(tail));
    OpenThenMore(lead, body + " " + more, rest, line, ts + us, close + LineBreaks(tail));
    Associates([Token(line, "{")], ts, us);
    Associates(lead + "{\n", body + " ", more);
    Associates(lead + "{\n", body, " ");
  }

  lemma {:induction false} BodyThenMore(body: string, more: string, rest: string, line: nat, ts: seq<Token>, line1: nat, us: seq<Token>, line2: nat)
    requires Lexes(body, [' '] + (more + rest), line, ts, line1) && Lexes(more, rest, line1, us, line2)
    ensures Lexes(body + " " + more, rest, line, ts + us, line2)
  {
    BlankLexes(' ', more + rest, line1);
    LexesConcat([' '], more, rest, line1, [], line1, us, line2);
    assert [] + us == us && [' '] + (more + rest) == [' '] + more + rest;
    LexesConcat(body, [' '] + more, rest, line, ts, line1, us, line2);
    assert body + ([' '] + more) == body + " " + more;
  }

  lemma {:induction false} TextThenMore(s: string, more: string, rest: string, line: nat, tokens: seq<Token>, line': nat)
    requires SafeText(s) && EndsToken(rest) && Lexes(more, rest, line + Breaks(s), tokens, line')
    ensures Lexes(PrintText(s) + " " + more, rest, line, [Token(line, s)] + tokens, line')
  {
    BlankLexes(' ', more + rest, line + Breaks(s));
    LexesConcat([' '], more, rest, line + Breaks(s), [], line + Breaks(s), tokens, line');
    assert [] + tokens == tokens;
    TextComesBack(s, [' '] + more + rest, line);
    LexesConcat(PrintText(s), [' '] + more, rest, line, [Token(line, s)], line + Breaks(s), tokens, line');
    assert PrintText(s) + ([' '] + more) == PrintText(s) + " " + more;
  }

  lemma {:induction false} OpenThenMore(lead: string, more: string, rest: string, line: nat, tokens: seq<Token>, line': nat)
    requires (lead == "" || lead == " ") && Lexes(more, rest, line + 1, tokens, line')
    ensures Lexes(lead + "{\n" + more, rest, line, [Token(line, "{")] + tokens, line')
  {
    BlankLexes('\n', more + rest, line);
    LexesConcat(['\n'], more, rest, line, [], line + 1, tokens, line');
    assert [] + tokens == tokens;
    var body := ['\n'] + more;
    BraceComesBack('{', body + rest, line);
    LexesConcat(['{'], body, rest, line, [Token(line, "{")], line, tokens, line');
    if lead == "" {
      assert lead + "{\n" + more == ['{'] + body;
    } else {
      var all := [Token(line, "{")] + tokens;
      BlankLexes(' ', ['{'] + body + rest, line);
      LexesConcat([' '], ['{'] + body, rest, line, [], line, all, line');
      assert [] + all == all && [' '] + (['{'] + body) == lead + "{\n" + more;
    }
  }

  /** The lines of a block and its closing brace. */
  lemma {:induction false} BlockLexes(lines: List<List<Value>>, depth: nat, lead: string, rest: string, line: nat)
    requires depth > 0 && (lead == "" || lead == " ") && SafeLines(lines, lead) && EndsToken(rest)
    ensures BlockLexed(lines, depth, lead, rest, line)
    decreases lines, 1
  {
    match lines {
      case Nil =>
        CloseLexes(depth, lead, rest, line);
      case Cons(l, tail) =>
        BlockLexes(tail, depth, lead, rest, line + LineBreaks(l) + 1);
        LineLexes(l, depth + 1, lead, ['\n'] + (PrintBody(tail, depth, lead) + rest), line);
        LineInBlock(l, tail, depth, lead, rest, line);
    }
  }

  lemma {:induction false} CloseLexes(depth: nat, lead: string, rest: string, line: nat)
    requires depth > 0 && EndsToken(rest)
    ensures BlockLexed(Nil, depth, lead, rest, line)
  {
    BraceComesBack('}', rest, line);
    TabsLex(depth - 1, ['}'] + rest, line);
    LexesConcat(Tabs(depth - 1), ['}'], rest, line, [], line, [Token(line, "}")], line);
    assert PrintBody(Nil, depth, lead) == Tabs(depth - 1) + ['}'];
    assert BlockTokens(Nil, line) == [] + [Token(line, "}")];
  }

  lemma {:induction false} LineInBlock(l: List<Value>, tail: List<List<Value>>, depth: nat, lead: string, rest: string, line: nat)
    requires depth > 0
    requires LineLexed(l, depth + 1, lead, ['\n'] + (PrintBody(tail, depth, lead) + rest), line)
    requires BlockLexed(tail, depth, lead, rest, line + LineBreaks(l) + 1)
    ensures BlockLexed(Cons(l, tail), depth, lead, rest, line)
  {
    var next := line + LineBreaks(l) + 1;
    LineThenMore(Tabs(depth), PrintLine(l, depth + 1, lead), PrintBody(tail, depth, lead), rest, line, LineTokens(l, line), LineBreaks(l),
                 BlockTokens(tail, next), next + LinesBreaks(tail), depth);
  }

  lemma {:induction false} LineThenMore(tabs: string, text: string, more: string, rest: string, line: nat, tokens: seq<Token>, breaks: nat,
                                        moreTokens: seq<Token>, line': nat, depth: nat)
    requires tabs == Tabs(depth) && Lexes(text, ['\n'] + (more + rest), line, tokens, line + breaks)
    requires Lexes(more, rest, line + breaks + 1, moreTokens, line')
    ensures Lexes(tabs + text + "\n" + more, rest, line, tokens + moreTokens, line')
  {
    BlankLexes('\n', more + rest, line + breaks);
    LexesConcat(['\n'], more, rest, line + breaks, [], line + breaks + 1, moreTokens, line');
    assert [] + moreTokens == moreTokens && ['\n'] + (more + rest) == ['\n'] + more + rest;
    var body := text + (['\n'] + more);
    LexesConcat(text, ['\n'] + more, rest, line, tokens, line + breaks, moreTokens, line');
    TabsLex(depth, body + rest, line);
    LexesConcat(tabs, body, rest, line, [], line, tokens + moreTokens, line');
    assert [] + (tokens + moreTokens) == tokens + moreTokens && tabs + body == tabs + text + "\n" + more;
  }

  // ----- regrouping -----

  /** The tokens at a position. */
  ghost predicate Holds(ts: seq<Token>, at: nat, xs: seq<Token>) {
    at + |xs| <= |ts| && forall i :: 0 <= i < |xs| ==> ts[at + i] == xs[i]
  }

  lemma {:induction false} HoldsParts(ts: seq<Token>, at: nat, a: seq<Token>, b: seq<Token>)
    requires Holds(ts, at, a + b)
    ensures Holds(ts, at, a) && Holds(ts, at + |a|, b)
  {
    forall i | 0 <= i < |a| ensures ts[at + i] == a[i] {
      assert (a + b)[i] == a[i];
    }
    forall i | 0 <= i < |b| ensures ts[at + |a| + i] == b[i] {
      assert ts[at + (|a| + i)] == (a + b)[|a| + i];
    }
  }

  lemma {:induction false} FirstTokenLine(ls: List<List<Value>>, line: nat, lead: string)
    requires SafeLines(ls, lead)
    ensures BlockTokens(ls, line) != [] && BlockTokens(ls, line)[0].line == line
  {
    match ls {
      case Nil =>
        assert LinesBreaks(ls) == 0;
      case Cons(l, rest) =>
        assert LineTokens(l, line)[0] == Token(line, l.head.s);
    }
  }

  lemma {:induction false} LastToken(ls: List<List<Value>>, line: nat)
    ensures var ts := BlockTokens(ls, line);
            ts != [] && ts[|ts| - 1] == Token(line + LinesBreaks(ls), "}")
  {
    match ls {
      case Nil =>
      case Cons(l, rest) =>
        LastToken(rest, line + LineBreaks(l) + 1);
    }
  }

  /** Token c ends on the line, and the tokens of the elements follow it, up to the end of theirs. */
  ghost predicate ArgsAt(ts: seq<Token>, c: nat, args: List<Value>, line: nat) {
    && c < |ts| && ts[c].file == "" && ts[c].line + Breaks(ts[c].text) == line && Holds(ts, c + 1, LineTokens(args, line))
    && var e := c + |LineTokens(args, line)|; e + 1 < |ts| ==> ts[e + 1].line != line + LineBreaks(args)
  }

  ghost predicate ArgsGrouped(ts: seq<Token>, c: nat, args: List<Value>, line: nat)
    requires c < |ts|
  {
    LineRest(ts, c) == Parsed(args, c + |LineTokens(args, line)|)
  }

  lemma {:induction false} GroupArgs(ts: seq<Token>, c: nat, args: List<Value>, line: nat, lead: string)
    requires SafeArgs(args, lead) && ArgsAt(ts, c, args, line)
    ensures ArgsGrouped(ts, c, args, line)
    decreases args, 0
  {
    match args {
      case Nil =>
      case Cons(Text(s), rest) =>
        TextAt(ts, c, s, rest, line);
        GroupArgs(ts, c + 1, rest, line + Breaks(s), lead);
        TextGrouped(ts, c, s, rest, line);
      case Cons(Block(lines), rest) =>
        var e := BlockAt(ts, c, lines, rest, line);
        GroupLines(ts, c + 1, lines, line + 1, lead);
        GroupArgs(ts, e, rest, line + 1 + LinesBreaks(lines), lead);
        BlockGrouped(ts, c, lines, rest, line, e);
    }
  }

  lemma {:induction false} TextAt(ts: seq<Token>, c: nat, s: string, rest: List<Value>, line: nat)
    requires ArgsAt(ts, c, Cons(Text(s), rest), line)
    ensures c + 1 < |ts| && ts[c + 1] == Token(line, s) && ArgsAt(ts, c + 1, rest, line + Breaks(s))
  {
    HoldsParts(ts, c + 1, [Token(line, s)], LineTokens(rest, line + Breaks(s)));
    assert ts[c + 1] == [Token(line, s)][0];
  }

  lemma {:induction false} TextGrouped(ts: seq<Token>, c: nat, s: string, rest: List<Value>, line: nat)
    requires c + 1 < |ts| && ts[c].file == "" && ts[c].line + Breaks(ts[c].text) == line && ts[c + 1] == Token(line, s) && s != "{"
    requires ArgsGrouped(ts, c + 1, rest, line + Breaks(s))
    ensures ArgsGrouped(ts, c, Cons(Text(s), rest), line)
  {
  }

  lemma {:induction false} BlockAt(ts: seq<Token>, c: nat, lines: List<List<Value>>, rest: List<Value>, line: nat) returns (e: nat)
    requires ArgsAt(ts, c, Cons(Block(lines), rest), line)
    ensures e == c + 1 + |BlockTokens(lines, line + 1)| < |ts| && c + 1 < e
    ensures ts[c + 1] == Token(line, "{") && Holds(ts, c + 2, BlockTokens(lines, line + 1))
    ensures ArgsAt(ts, e, rest, line + 1 + LinesBreaks(lines))
    ensures |LineTokens(Cons(Block(lines), rest), line)| == e - c + |LineTokens(rest, line + 1 + LinesBreaks(lines))|
  {
    e := BlockParts(ts, c, lines, rest, line);
  }

  lemma {:induction false} BlockGrouped(ts: seq<Token>, c: nat, lines: List<List<Value>>, rest: List<Value>, line: nat, e: nat)
    requires c + 1 < e < |ts| && ts[c].file == "" && ts[c].line + Breaks(ts[c].text) == line && ts[c + 1] == Token(line, "{")
    requires BlockFrom(ts, c + 1) == Parsed(lines, e) && ArgsGrouped(ts, e, rest, line + 1 + LinesBreaks(lines))
    requires |LineTokens(Cons(Block(lines), rest), line)| == e - c + |LineTokens(rest, line + 1 + LinesBreaks(lines))|
    ensures ArgsGrouped(ts, c, Cons(Block(lines), rest), line)
  {
    BlockThenRest(ts, c, lines, e);
  }

  /** Where the tokens of a block and of the elements behind it stand. */
  lemma {:induction false} BlockParts(ts: seq<Token>, c: nat, lines: List<List<Value>>, rest: List<Value>, line: nat) returns (e: nat)
    requires Holds(ts, c + 1, LineTokens(Cons(Block(lines), rest), line))
    ensures var close := line + 1 + LinesBreaks(lines);
            && e == c + 1 + |BlockTokens(lines, line + 1)| < |ts| && c + 1 < e
            && ts[c + 1] == Token(line, "{") && Holds(ts, c + 2, BlockTokens(lines, line + 1))
            && ts[e] == Token(close, "}") && Breaks(ts[e].text) == 0
            && Holds(ts, e + 1, LineTokens(rest, close))
            && |LineTokens(Cons(Block(lines), rest), line)| == e - c + |LineTokens(rest, close)|
  {
    var block := BlockTokens(lines, line + 1);
    HoldsParts(ts, c + 1, [Token(line, "{")] + block, LineTokens(rest, line + 1 + LinesBreaks(lines)));
    BlockEnds(ts, c, lines, line);
    e := c + 1 + |block|;
  }

  lemma {:induction false} BlockEnds(ts: seq<Token>, c: nat, lines: List<List<Value>>, line: nat)
    requires Holds(ts, c + 1, [Token(line, "{")] + BlockTokens(lines, line + 1))
    ensures var e := c + 1 + |BlockTokens(lines, line + 1)|;
            && c + 1 < e < |ts| && ts[c + 1] == Token(line, "{") && Holds(ts, c + 2, BlockTokens(lines, line + 1))
            && ts[e] == Token(line + 1 + LinesBreaks(lines), "}") && Breaks(ts[e].text) == 0
  {
    var more := BlockTokens(lines, line + 1);
    HoldsParts(ts, c + 1, [Token(line, "{")], more);
    assert ts[c + 1] == [Token(line, "{")][0];
    LastToken(lines, line + 1);
    assert ts[c + 2 + (|more| - 1)] == more[|more| - 1];
    assert Breaks("}") == 0;
  }

  lemma {:induction false} BlockThenRest(ts: seq<Token>, c: nat, lines: List<List<Value>>, e: nat)
    requires SameLine(ts, c) && ts[c + 1].text == "{" && BlockFrom(ts, c + 1) == Parsed(lines, e)
    ensures LineRest(ts, c) == Parsed(Cons(Block(lines), LineRest(ts, e).value), LineRest(ts, e).cursor)
  {
  }

  lemma {:induction false} GroupLines(ts: seq<Token>, c: nat, ls: List<List<Value>>, line: nat, lead: string)
    requires c < |ts| && SafeLines(ls, lead) && Holds(ts, c + 1, BlockTokens(ls, line))
    ensures BlockFrom(ts, c) == Parsed(ls, c + |BlockTokens(ls, line)|)
    decreases ls, 1
  {
    match ls {
      case Nil =>
        assert ts[c + 1 + 0] == BlockTokens(ls, line)[0];
      case Cons(l, rest) =>
        var s, args := l.head.s, l.tail;
        var next := line + LineBreaks(l) + 1;
        var first, more := [Token(line, s)], LineTokens(args, line + Breaks(s));
        HoldsParts(ts, c + 1, LineTokens(l, line), BlockTokens(rest, next));
        HoldsParts(ts, c + 1, first, more);
        assert ts[c + 1 + 0] == first[0];
        FirstTokenLine(rest, next, lead);
        var e := c + |LineTokens(l, line)|;
        assert ts[e + 1 + 0] == BlockTokens(rest, next)[0];
        GroupArgs(ts, c + 1, args, line + Breaks(s), lead);
        GroupLines(ts, e, rest, next, lead);
    }
  }

  // ----- the round trip -----

  /** A printed block, wherever it stands in a text, is read back as the same lines. */
  lemma {:induction false} BlockComesBack(ls: List<List<Value>>, depth: nat, lead: string, before: seq<Token>, line: nat, rest: string)
    requires depth > 0 && (lead == "" || lead == " ") && SafeLines(ls, lead) && EndsToken(rest)
    ensures var n := |BlockTokens(ls, line + 1)|;
            var ts := before + Scan(PrintBlock(ls, depth, lead) + rest, line, FRESH);
            && |before| + n < |ts|
            && BlockFrom(ts, |before|) == Parsed(ls, |before| + n)
            && ts[|before| + n + 1..] == Scan(rest, line + 1 + LinesBreaks(ls), FRESH)
  {
    PrintedBlockLexes(ls, depth, lead, line, rest);
    GroupsInside(ls, before, line, Scan(rest, line + 1 + LinesBreaks(ls), FRESH), lead);
  }

  /** The tokens of a block are grouped into it wherever they stand. */
  lemma {:induction false} GroupsInside(ls: List<List<Value>>, before: seq<Token>, line: nat, more: seq<Token>, lead: string)
    requires SafeLines(ls, lead)
    ensures var block := BlockTokens(ls, line + 1);
            var ts := before + ([Token(line, "{")] + block + more);
            && |before| + |block| < |ts|
            && BlockFrom(ts, |before|) == Parsed(ls, |before| + |block|)
            && ts[|before| + |block| + 1..] == more
  {
    var block := BlockTokens(ls, line + 1);
    HoldsInside(before, Token(line, "{"), block, more);
    GroupLines(before + ([Token(line, "{")] + block + more), |before|, ls, line + 1, lead);
  }

  lemma {:induction false} HoldsInside(before: seq<Token>, x: Token, xs: seq<Token>, more: seq<Token>)
    ensures var ts := before + ([x] + xs + more);
            Holds(ts, |before| + 1, xs) && ts[|before| + |xs| + 1..] == more
  {
  }

  lemma {:induction false} PrintedBlockLexes(ls: List<List<Value>>, depth: nat, lead: string, line: nat, rest: string)
    requires depth > 0 && (lead == "" || lead == " ") && SafeLines(ls, lead) && EndsToken(rest)
    ensures Lexes(PrintBlock(ls, depth, lead), rest, line, [Token(line, "{")] + BlockTokens(ls, line + 1), line + 1 + LinesBreaks(ls))
  {
    BlockLexes(ls, depth, lead, rest, line + 1);
    var more := PrintBody(ls, depth, lead);
    OpenThenMore(" ", more, rest, line, BlockTokens(ls, line + 1), line + 1 + LinesBreaks(ls));
    assert " " + "{\n" + more == PrintBlock(ls, depth, lead);
  }
}
