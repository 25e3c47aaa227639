/** The Caddyfile lexer (caddyfile/lexer.go). Text is a sequence of Unicode characters. */
module CaddyLexer {

  /** The lexer leaves the file name empty; imports fill it in. */
  datatype Token = Token(line: nat, text: string, file: string := "")

  /** The local variables of one call of next. */
  datatype Scanner = Scanner(val: string, quoted: bool, escaped: bool, comment: bool, start: nat)

  const FRESH := Scanner("", false, false, false, 0)

  /** unicode.IsSpace */
  predicate IsSpace(c: char) {
    || c == '\t' || c == '\n' || c == '\U{b}' || c == '\U{c}' || c == '\r' || c == ' '
    || c == '\U{85}' || c == '\U{a0}' || c == '\U{1680}' || '\U{2000}' <= c <= '\U{200a}'
    || c == '\U{2028}' || c == '\U{2029}' || c == '\U{202f}' || c == '\U{205f}' || c == '\U{3000}'
  }

  /** What one character does: it may end a token, and leaves a line number and a scanner. */
  datatype Effect = Effect(token: bool, line: nat, sc: Scanner)

  function Feed(c: char, line: nat, sc: Scanner): Effect {
    if sc.quoted then
      if !sc.escaped && c == '\\' then Effect(false, line, sc.(escaped := true))
      else if !sc.escaped && c == '"' then Effect(true, line, sc)
      else
        Effect(false, if c == '\n' then line + 1 else line,
               sc.(val := (if sc.escaped && c != '"' then sc.val + "\\" else sc.val) + [c], escaped := false))
    else if IsSpace(c) then
      if c == '\r' then Effect(false, line, sc)
      else
        Effect(sc.val != "", if c == '\n' then line + 1 else line, sc.(comment := sc.comment && c != '\n'))
    else if sc.comment || c == '#' then Effect(false, line, sc.(comment := true))
    else if sc.val == "" then
      if c == '"' then Effect(false, line, sc.(start := line, quoted := true))
      else Effect(false, line, sc.(start := line, val := sc.val + [c]))
    else Effect(false, line, sc.(val := sc.val + [c]))
  }

  /** All tokens of a text that one call of next has begun to read. */
  function Scan(s: string, line: nat, sc: Scanner): seq<Token>
    decreases |s|
  {
    if s == "" then
      if sc.val != "" then [Token(sc.start, sc.val)] else []
    else
      var e := Feed(s[0], line, sc);
      if e.token then [Token(sc.start, sc.val)] + Scan(s[1..], e.line, FRESH)
      else Scan(s[1..], e.line, e.sc)
  }

  /** All tokens of a text; a leading byte order mark is dropped. */
  function TokensOf(s: string): seq<Token> {
    Scan(if s != "" && s[0] == '\U{feff}' then s[1..] else s, 1, FRESH)
  }

  class Lexer {
    const input: string
    var pos: nat
    var line: nat
    var token: Token

    ghost predicate Valid()
      reads this
    {
      pos <= |input|
    }

    /** The tokens still to come. */
    ghost function Coming(): seq<Token>
      requires Valid()
      reads this
    {
      Scan(input[pos..], line, FRESH)
    }

    constructor (input: string)
      ensures Valid() && Coming() == TokensOf(input)
    {
      this.input := input;
      pos := if input != "" && input[0] == '\U{feff}' then 1 else 0;
      line := 1;
      token := Token(0, "");
    }

    /** Loads the next token, if there is one. */
    method Next() returns (found: bool)
      requires Valid()
      modifies this
      ensures Valid()
      ensures found ==> old(Coming()) == [token] + Coming()
      ensures !found ==> old(Coming()) == [] && Coming() == []
    {
      var val, quoted, escaped, comment, start := "", false, false, false, 0;
      while pos < |input|
        invariant Valid()
        invariant old(Coming()) == Scan(input[pos..], line, Scanner(val, quoted, escaped, comment, start))
      {
        var ch := input[pos];
        assert input[pos..][0] == ch && input[pos..][1..] == input[pos + 1..];
        pos := pos + 1;
        if quoted {
          if !escaped && ch == '\\' {
            escaped := true;
          } else if !escaped && ch == '"' {
            token := Token(start, val);
            return true;
          } else {
            if ch == '\n' {
              line := line + 1;
            }
            if escaped && ch != '"' {
              val := val + "\\";
            }
            val := val + [ch];
            escaped := false;
          }
        } else if IsSpace(ch) {
          if ch != '\r' {
            if ch == '\n' {
              line := line + 1;
              comment := false;
            }
            if val != "" {
              token := Token(start, val);
              return true;
            }
          }
        } else {
          if ch == '#' {
            comment := true;
          }
          if !comment {
            if val == "" {
              start := line;
            }
            if val == "" && ch == '"' {
              quoted := true;
            } else {
              val := val + [ch];
            }
          }
        }
      }
      if val != "" {
        token := Token(start, val);
        return true;
      }
      return false;
    }
  }

  method AllTokens(input: string) returns (tokens: seq<Token>)
    ensures tokens == TokensOf(input)
  {
    var l := new Lexer(input);
    tokens := [];
    var more := l.Next();
    while more
      invariant l.Valid()
      invariant TokensOf(input) == tokens + (if more then [l.token] else []) + l.Coming()
      invariant !more ==> l.Coming() == []
      decreases |l.Coming()| + if more then 1 else 0
    {
      tokens := tokens + [l.token];
      more := l.Next();
    }
  }
}
