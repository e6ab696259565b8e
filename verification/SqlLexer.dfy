/** A character-at-a-time lexer for SQL text: the reference both hand-written
    scanners are measured against.

    It looks at one character and remembers one mode.  Two-character tokens are
    recognised through the pending modes Dash, Slash and BlockStar, and a
    doubled quote inside a literal needs no case of its own: the first quote
    closes the literal and the second opens it again, and nothing lies between
    them. */
module SqlLexer {
  import opened Text

  datatype Mode =
    | Code
    | Dash          // in code, just after '-'
    | Slash         // in code, just after '/'
    | Quoted(quote: char)
    | Bracket
    | LineComment
    | Block
    | BlockStar     // in a block comment, just after '*'

  predicate InCode(m: Mode) { m.Code? || m.Dash? || m.Slash? }

  predicate InBlock(m: Mode) { m.Block? || m.BlockStar? }

  function FromCode(c: char): Mode {
    if c == '\'' || c == '"' then Quoted(c)
    else if c == '[' then Bracket
    else if c == '-' then Dash
    else if c == '/' then Slash
    else Code
  }

  function Next(m: Mode, c: char): Mode {
    match m
    case Code => FromCode(c)
    case Dash => if c == '-' then LineComment else FromCode(c)
    case Slash => if c == '*' then Block else FromCode(c)
    case Quoted(q) => if c == q then Code else m
    case Bracket => if c == ']' then Code else Bracket
    case LineComment => if c == '\n' then Code else LineComment
    case Block => if c == '*' then BlockStar else Block
    case BlockStar => if c == '/' then Code else if c == '*' then BlockStar else Block
  }

  /** The mode after the first i characters of s, started in mode m. */
  function ModeFrom(m: Mode, s: string, i: nat): Mode
    requires i <= |s|
  {
    if i == 0 then m else Next(ModeFrom(m, s, i - 1), s[i - 1])
  }

  function ModeAt(s: string, i: nat): Mode
    requires i <= |s|
  {
    ModeFrom(Code, s, i)
  }

  /** A semicolon outside quotes, brackets and comments. */
  predicate SeparatorAt(s: string, k: nat)
    requires k < |s|
  {
    s[k] == ';' && InCode(ModeAt(s, k))
  }

  /** The meaning of "multiple statements": some separator has text after it. */
  predicate MultipleStatements(s: string) {
    exists k | 0 <= k < |s| :: SeparatorAt(s, k) && !Blank(s[k + 1..])
  }

  // Parentheses, clamped at zero, counted in code only.
  function DepthAt(s: string, i: nat): nat
    requires i <= |s|
  {
    if i == 0 then 0 else
      var d := DepthAt(s, i - 1);
      if !InCode(ModeAt(s, i - 1)) then d
      else if s[i - 1] == '(' then d + 1
      else if s[i - 1] == ')' && d > 0 then d - 1
      else d
  }

  /** Reading a concatenation is reading its first part and then the second. */
  lemma {:induction false} ModeConcat(m: Mode, p: string, q: string, i: nat)
    requires i <= |p| + |q|
    ensures ModeFrom(m, p + q, i) ==
            if i <= |p| then ModeFrom(m, p, i) else ModeFrom(ModeFrom(m, p, |p|), q, i - |p|)
  {
    if i > 0 {
      ModeConcat(m, p, q, i - 1);
    }
  }
}
