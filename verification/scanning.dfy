/** The tokens of a text: what each call of the lexer finds from a position on. */
module Scanning {
  import opened TokenSets
  import opened Tokens

  // ------------------------------------------------------------------------- characters

  predicate IsWhitespace(c: char) {
    c <= ' '
  }

  predicate IsIdentStart(c: char) {
    'a' <= c <= 'z' || 'A' <= c <= 'Z' || c == '_'
  }

  predicate IsIdent(c: char) {
    IsIdentStart(c) || '0' <= c <= '9'
  }

  predicate IsNumberStart(c: char) {
    '0' <= c <= '9' || c == '.'
  }

  /** A character that continues a number, the separator included. */
  predicate IsNumber(c: char) {
    IsNumberStart(c) || 'a' <= c <= 'z' || 'A' <= c <= 'Z' || c == '\''
  }

  // ---------------------------------------------------------------------------- symbols

  /** The token of one character, or TKN_INVALID. */
  function Symbol1(c: char): int {
    match c
    case ';' => TKN_SEMICOLON
    case '{' => TKN_LBRACE
    case '}' => TKN_RBRACE
    case ',' => TKN_COMMA
    case ':' => TKN_COLON
    case '=' => TKN_ASSIGN
    case '(' => TKN_LPAREN
    case ')' => TKN_RPAREN
    case '[' => TKN_LBRACK
    case ']' => TKN_RBRACK
    case '.' => TKN_PERIOD
    case '&' => TKN_BITWISE_AND
    case '!' => TKN_NOT_OP
    case '~' => TKN_BITWISE_NOT
    case '-' => TKN_SUB_OP
    case '+' => TKN_ADD_OP
    case '*' => TKN_MUL_OP
    case '/' => TKN_DIV_OP
    case '%' => TKN_MOD_OP
    case '<' => TKN_LT_OP
    case '>' => TKN_GT_OP
    case '^' => TKN_BITWISE_XOR
    case '|' => TKN_BITWISE_OR
    case '?' => TKN_QUESTION
    case '#' => TKN_HASH
    case _ => TKN_INVALID
  }

  function Symbol2(c: char, d: char): int {
    if d == '=' then
      match c
      case ':' => TKN_DEF_ASSIGN
      case '+' => TKN_ADD_ASSIGN
      case '-' => TKN_SUB_ASSIGN
      case '*' => TKN_MUL_ASSIGN
      case '/' => TKN_DIV_ASSIGN
      case '%' => TKN_MOD_ASSIGN
      case '&' => TKN_AND_ASSIGN
      case '^' => TKN_XOR_ASSIGN
      case '|' => TKN_OR_ASSIGN
      case '<' => TKN_LE_OP
      case '>' => TKN_GE_OP
      case '=' => TKN_EQ_OP
      case '!' => TKN_NE_OP
      case _ => TKN_INVALID
    else if c == d then
      match c
      case '>' => TKN_RIGHT_OP
      case '<' => TKN_LEFT_OP
      case '+' => TKN_INC_OP
      case '-' => TKN_DEC_OP
      case '&' => TKN_AND_OP
      case '|' => TKN_OR_OP
      case _ => TKN_INVALID
    else if c == '-' && d == '>' then TKN_MAPTO
    else TKN_INVALID
  }

  function Symbol3(c: char, d: char, e: char): int {
    if c == '.' && d == '.' && e == '.' then TKN_ELLIPSIS
    else if c == '>' && d == '>' && e == '=' then TKN_RIGHT_ASSIGN
    else if c == '<' && d == '<' && e == '=' then TKN_LEFT_ASSIGN
    else TKN_INVALID
  }

  // --------------------------------------------------------------------------- keywords

  const KEYWORDS: nat := 38

  /** The keywords and their tokens, in the order in which the lexer tries them. */
  function Keyword(i: nat): (string, int)
    requires i < KEYWORDS
  {
    match i
    case 0 => ("alignas", TKN_ALIGNAS)
    case 1 => ("atomic", TKN_ATOMIC)
    case 2 => ("break", TKN_BREAK)
    case 3 => ("cap", TKN_CAP)
    case 4 => ("case", TKN_CASE)
    case 5 => ("const", TKN_CONST)
    case 6 => ("continue", TKN_CONTINUE)
    case 7 => ("default", TKN_DEFAULT)
    case 8 => ("dispose", TKN_DISPOSE)
    case 9 => ("do", TKN_DO)
    case 10 => ("else", TKN_ELSE)
    case 11 => ("enum", TKN_ENUM)
    case 12 => ("extern", TKN_EXTERN)
    case 13 => ("for", TKN_FOR)
    case 14 => ("free", TKN_FREE)
    case 15 => ("func", TKN_FUNC)
    case 16 => ("goto", TKN_GOTO)
    case 17 => ("if", TKN_IF)
    case 18 => ("import", TKN_IMPORT)
    case 19 => ("inline", TKN_INLINE)
    case 20 => ("interface", TKN_INTERFACE)
    case 21 => ("len", TKN_LEN)
    case 22 => ("make", TKN_MAKE)
    case 23 => ("new", TKN_NEW)
    case 24 => ("package", TKN_PACKAGE)
    case 25 => ("return", TKN_RETURN)
    case 26 => ("sizeof", TKN_SIZEOF)
    case 27 => ("static", TKN_STATIC)
    case 28 => ("struct", TKN_STRUCT)
    case 29 => ("switch", TKN_SWITCH)
    case 30 => ("type", TKN_TYPE)
    case 31 => ("typedef", TKN_TYPEDEF)
    case 32 => ("union", TKN_UNION)
    case 33 => ("var", TKN_VAR)
    case 34 => ("void", TKN_VOID)
    case 35 => ("volatile", TKN_VOLATILE)
    case 36 => ("while", TKN_WHILE)
    case _ => ("yield", TKN_YIELD)
  }

  /** What the first n keywords make of a word. */
  function KeywordAmong(n: nat, word: string): int
    requires n <= KEYWORDS
  {
    if n == 0 then TKN_IDENT
    else if Keyword(n - 1).0 == word then Keyword(n - 1).1
    else KeywordAmong(n - 1, word)
  }

  /** The token of a word: that of the keyword, or of an identifier. */
  function WordToken(word: string): int {
    KeywordAmong(KEYWORDS, word)
  }

  /** The tokens after which a newline ends the statement. */
  const TERMINATORS: seq<int> := [
    TKN_BREAK, TKN_CONTINUE, TKN_DEC_OP, TKN_IDENT, TKN_INC_OP, TKN_NUMBER_LITERAL, TKN_RBRACE, TKN_RETURN,
    TKN_RPAREN, TKN_STRING_LITERAL, TKN_VOID, TKN_RBRACK
  ]

  // --------------------------------------------------------------------- ends of tokens

  /** A text of length `end` in a buffer that goes on with a character that continues
      neither words nor numbers. */
  predicate Terminated(b: string, end: nat) {
    end < |b| && !IsIdent(b[end]) && !IsNumber(b[end])
  }

  function WordEnd(b: string, end: nat, p: nat): (q: nat)
    requires Terminated(b, end) && p <= end
    ensures p <= q <= end && (forall i :: p <= i < q ==> IsIdent(b[i])) && !IsIdent(b[q])
    decreases end - p
  {
    if IsIdent(b[p]) then WordEnd(b, end, p + 1) else p
  }

  function NumberEnd(b: string, end: nat, p: nat): (q: nat)
    requires Terminated(b, end) && p <= end
    ensures p <= q <= end && (forall i :: p <= i < q ==> IsNumber(b[i])) && !IsNumber(b[q])
    decreases end - p
  {
    if IsNumber(b[p]) then NumberEnd(b, end, p + 1) else p
  }

  /** Behind the quote that closes the string, or beyond the end where it is left open. */
  function StringEnd(b: string, end: nat, p: nat): (q: nat)
    requires p <= end < |b|
    ensures p <= q <= end + 1
    decreases end - p
  {
    if p == end then end + 1
    else if b[p] == '"' then p + 1
    else if b[p] != '\\' then StringEnd(b, end, p + 1)
    else if p + 1 == end then end + 1
    else StringEnd(b, end, p + 2)
  }

  /** Behind the newline that ends the line. */
  function LineEnd(b: string, end: nat, p: nat): (q: nat)
    requires p <= end < |b|
    ensures p <= q <= end
    decreases end - p
  {
    if p == end then end else if b[p] == '\n' then p + 1 else LineEnd(b, end, p + 1)
  }

  /** Behind the next mark that closes a block comment. */
  function BlockEnd(b: string, end: nat, p: nat): (q: nat)
    requires p <= end < |b|
    ensures p <= q <= end
    decreases end - p
  {
    if p == end then end
    else if b[p] == '*' && p + 1 < end && b[p + 1] == '/' then p + 2
    else BlockEnd(b, end, p + 1)
  }

  // ----------------------------------------------------------------------------- tokens

  /** A token, where its text begins, and where the lexer goes on. */
  datatype Found = Found(token: int, base: nat, ptr: nat)

  predicate StartsComment(b: string, end: nat, p: nat)
    requires p < end < |b|
  {
    end - p >= 2 && b[p] == '/' && (b[p + 1] == '/' || b[p + 1] == '*')
  }

  function CommentEnd(b: string, end: nat, p: nat): (q: nat)
    requires p < end < |b| && StartsComment(b, end, p)
    ensures p + 2 <= q <= end
  {
    if b[p + 1] == '/' then LineEnd(b, end, p + 2) else BlockEnd(b, end, p + 2)
  }

  /** The length of the longest symbol at p, or 0. */
  function SymbolLength(b: string, end: nat, p: nat): (n: nat)
    requires p < end < |b|
    ensures n <= 3 && p + n <= end
  {
    if end - p >= 3 && Symbol3(b[p], b[p + 1], b[p + 2]) != TKN_INVALID then 3
    else if end - p >= 2 && Symbol2(b[p], b[p + 1]) != TKN_INVALID then 2
    else if Symbol1(b[p]) != TKN_INVALID then 1
    else 0
  }

  function SymbolToken(b: string, p: nat, n: nat): int
    requires p + n <= |b| && 1 <= n <= 3
  {
    if n == 3 then Symbol3(b[p], b[p + 1], b[p + 2]) else if n == 2 then Symbol2(b[p], b[p + 1]) else Symbol1(b[p])
  }

  /** A character that begins nothing. */
  predicate IsGarbage(c: char) {
    !IsWhitespace(c) && Symbol1(c) == TKN_INVALID && c != '"' && !IsNumberStart(c) && !IsIdentStart(c)
  }

  /** The token at p, where neither whitespace, a comment nor garbage begins. */
  function TokenAt(b: string, end: nat, p: nat): (f: Found)
    requires Terminated(b, end) && p < end
    ensures f.base == p && p < f.ptr <= end
  {
    var n := SymbolLength(b, end, p);
    if n > 0 then Found(SymbolToken(b, p, n), p, p + n)
    else if b[p] == '"' then
      var q := StringEnd(b, end, p + 1);
      if q <= end then Found(TKN_STRING_LITERAL, p, q) else Found(TKN_INVALID, p, end)
    else if IsNumberStart(b[p]) then Found(TKN_NUMBER_LITERAL, p, NumberEnd(b, end, p + 1))
    else
      var q := WordEnd(b, end, p + 1);
      Found(WordToken(b[p..q]), p, q)
  }

  /** The token at p, or an empty identifier before garbage. */
  function FoundAt(b: string, end: nat, p: nat): Found
    requires Terminated(b, end) && p < end
  {
    if IsGarbage(b[p]) then Found(TKN_IDENT, p, p) else TokenAt(b, end, p)
  }

  /** The next token from p on, when the last one was `last` and `base` is where the
      lexer last began one. Garbage is skipped, but after an identifier it makes the
      lexer deliver an empty identifier and stay where it is. */
  function NextToken(b: string, end: nat, p: nat, last: int, base: nat): (f: Found)
    requires Terminated(b, end) && p <= end
    ensures p <= f.ptr <= end
    decreases end - p
  {
    if p == end then Found(TKN_EOF, base, end)
    else if IsWhitespace(b[p]) then
      if b[p] == '\n' && last in TERMINATORS then Found(TKN_SEMICOLON, p, p + 1)
      else NextToken(b, end, p + 1, last, base)
    else if StartsComment(b, end, p) then NextToken(b, end, CommentEnd(b, end, p), last, p)
    else if IsGarbage(b[p]) && last != TKN_IDENT then NextToken(b, end, p + 1, last, p)
    else FoundAt(b, end, p)
  }
}
