/**
 The hand-written JSONC scanner of setup.py, as functions of the text that is
 still unread.  Every function answers with the number of characters it
 consumes, so that an index of the Python code is the length of what lies before.
 Comments, strings and objects are those of JSON5, sections 7, 5 and 3.
 */
module JsoncScanner {
  import opened Results

  /** Why the scanner gives up; one case per message of setup.py. */
  datatype Failure =
    | UnterminatedComment
    | UnterminatedString
    | EndsBeforeValue
    | ValueIncomplete
    | NotAnObject
    | InvalidPropertyName
    | UndecodableName
    | MissingSeparator
    | IncompleteObject
    | MissingProperty
    | MissingReleasePin

  type Scan = Result<nat, Failure>

  /** What the scanner takes from its surroundings: Unicode's alphanumeric
      characters outside ASCII, and json5's reading of a quoted name. */
  datatype Lexicon = Lexicon(wideAlnum: char -> bool, decode: string -> Option<string>)

  const BOM: char := '\U{FEFF}'

  /** Python's str.isspace on one character. */
  predicate IsSpace(c: char) {
    || '\t' <= c <= '\r'
    || '\U{1C}' <= c <= ' '
    || c == '\U{85}' || c == '\U{A0}' || c == '\U{1680}'
    || '\U{2000}' <= c <= '\U{200A}'
    || c == '\U{2028}' || c == '\U{2029}' || c == '\U{202F}' || c == '\U{205F}' || c == '\U{3000}'
  }

  /** A character of an unquoted name. */
  predicate IsIdent(lex: Lexicon, c: char) {
    if c < '\U{80}' then
      '0' <= c <= '9' || 'a' <= c <= 'z' || 'A' <= c <= 'Z' || c == '_' || c == '$'
    else
      lex.wideAlnum(c) && !IsSpace(c)
  }

  predicate IsQuote(c: char) { c == '"' || c == '\'' }

  predicate IsOpener(c: char) { c == '{' || c == '[' }

  function Closing(c: char): char {
    if c == '{' then '}' else ']'
  }

  predicate StartsComment(s: string) {
    |s| >= 2 && s[0] == '/' && (s[1] == '/' || s[1] == '*')
  }

  function Shift(n: nat, r: Scan): Scan {
    match r
    case Ok(m) => Ok(n + m)
    case Err(e) => Err(e)
  }

  /** Length of the first line, its newline included. */
  function LineLen(s: string): (n: nat)
    ensures n <= |s|
  {
    if s == [] then 0 else if s[0] == '\n' then 1 else 1 + LineLen(s[1..])
  }

  /** Length up to and including the first comment end. */
  function BlockLen(s: string): (n: Scan)
    ensures n.Ok? ==> 2 <= n.value <= |s|
  {
    if |s| < 2 then Err(UnterminatedComment)
    else if s[0] == '*' && s[1] == '/' then Ok(2)
    else Shift(1, BlockLen(s[1..]))
  }

  function CommentLen(s: string): (n: Scan)
    requires StartsComment(s)
    ensures n.Ok? ==> 2 <= n.value <= |s|
  {
    if s[1] == '/' then Ok(2 + LineLen(s[2..])) else Shift(2, BlockLen(s[2..]))
  }

  /** Leading whitespace and comments. */
  function Trivia(s: string): (n: Scan)
    ensures n.Ok? ==> n.value <= |s|
    decreases |s|
  {
    if s != [] && IsSpace(s[0]) then
      Shift(1, Trivia(s[1..]))
    else if StartsComment(s) then
      var n :- CommentLen(s);
      Shift(n, Trivia(s[n..]))
    else
      Ok(0)
  }

  /** The rest of a string whose opening quote has been read. */
  function StringRest(s: string, quote: char): (n: Scan)
    ensures n.Ok? ==> 1 <= n.value <= |s|
    decreases |s|
  {
    if s == [] then Err(UnterminatedString)
    else if s[0] == '\\' then
      if |s| < 2 then Err(UnterminatedString) else Shift(2, StringRest(s[2..], quote))
    else if s[0] == quote then Ok(1)
    else Shift(1, StringRest(s[1..], quote))
  }

  predicate EndsBare(s: string) {
    s == [] || s[0] == ',' || s[0] == '}' || s[0] == ']' || IsSpace(s[0]) || StartsComment(s)
  }

  /** The run of an unquoted scalar. */
  function Bare(s: string): (n: nat)
    ensures n <= |s|
  {
    if EndsBare(s) then 0 else 1 + Bare(s[1..])
  }

  /** One turn of the bracket loop: the characters it consumes and the closing
      brackets still awaited after it, the innermost one last. */
  function Step(s: string, awaited: seq<char>): (r: Result<(nat, seq<char>), Failure>)
    requires awaited != []
    ensures r.Ok? ==> 0 < r.value.0 <= |s|
  {
    var n :- Trivia(s);
    if n == |s| then Err(ValueIncomplete)
    else if IsQuote(s[n]) then
      var m :- StringRest(s[n + 1..], s[n]);
      Ok((n + 1 + m, awaited))
    else if IsOpener(s[n]) then Ok((n + 1, awaited + [Closing(s[n])]))
    else if s[n] == awaited[|awaited| - 1] then Ok((n + 1, awaited[..|awaited| - 1]))
    else Ok((n + 1, awaited))
  }

  /** Text up to the point where every awaited bracket has been met. */
  function Close(s: string, awaited: seq<char>): (n: Scan)
    ensures n.Ok? ==> n.value <= |s|
    decreases |s|
  {
    if awaited == [] then Ok(0)
    else
      var (n, next) :- Step(s, awaited);
      Shift(n, Close(s[n..], next))
  }

  /** A value whose first character is not trivia. */
  function Token(s: string): (n: Scan)
    requires s != []
    ensures n.Ok? ==> n.value <= |s|
  {
    if IsQuote(s[0]) then Shift(1, StringRest(s[1..], s[0]))
    else if IsOpener(s[0]) then Shift(1, Close(s[1..], [Closing(s[0])]))
    else Ok(Bare(s))
  }

  function Value(s: string): (n: Scan)
    ensures n.Ok? ==> n.value <= |s|
  {
    var n :- Trivia(s);
    if n == |s| then Err(EndsBeforeValue) else Shift(n, Token(s[n..]))
  }

  function IdentLen(lex: Lexicon, s: string): (n: nat)
    ensures n <= |s|
  {
    if s == [] || !IsIdent(lex, s[0]) then 0 else 1 + IdentLen(lex, s[1..])
  }

  /** A property name: its length in the text and the name it denotes. */
  function Name(lex: Lexicon, s: string): (r: Result<(nat, string), Failure>)
    requires s != []
    ensures r.Ok? ==> 0 < r.value.0 <= |s|
  {
    if IsQuote(s[0]) then
      var m :- StringRest(s[1..], s[0]);
      match lex.decode(s[..1 + m])
      case None => Err(UndecodableName)
      case Some(key) => Ok((1 + m, key))
    else
      var n := IdentLen(lex, s);
      if n == 0 then Err(InvalidPropertyName) else Ok((n, s[..n]))
  }

  /** The colon behind a name, with the trivia around it. */
  function Separator(s: string): (n: Scan)
    ensures n.Ok? ==> 1 <= n.value <= |s|
  {
    var a :- Trivia(s);
    if a == |s| || s[a] != ':' then Err(MissingSeparator)
    else Shift(a + 1, Trivia(s[a + 1..]))
  }

  /** Everything from a name to the value it introduces. */
  function Head(lex: Lexicon, s: string): (r: Result<(nat, string), Failure>)
    requires s != []
    ensures r.Ok? ==> 2 <= r.value.0 <= |s|
  {
    var (k, key) :- Name(lex, s);
    var n :- Separator(s[k..]);
    Ok((k + n, key))
  }

  /** One property with all of its text: head ends where the value starts, after
      is the trivia behind the value and gap the trivia behind the comma. */
  datatype Item = Item(key: string, head: string, value: string, after: string, comma: bool, gap: string)

  function Tail(it: Item): string {
    it.after + if it.comma then "," + it.gap else ""
  }

  function ItemText(it: Item): string {
    it.head + it.value + Tail(it)
  }

  function Text(items: seq<Item>): string {
    if items == [] then "" else ItemText(items[0]) + Text(items[1..])
  }

  /** What stands behind a value: trivia, perhaps a comma with more trivia, and
      the text of the next property. */
  function Behind(s: string): (r: Result<(string, bool, string, string), Failure>)
    ensures r.Ok? ==> |r.value.3| <= |s|
  {
    var a :- Trivia(s);
    var rest := s[a..];
    if rest != [] && rest[0] == ',' then
      var g :- Trivia(rest[1..]);
      Ok((s[..a], true, rest[1..][..g], rest[1..][g..]))
    else
      Ok((s[..a], false, "", rest))
  }

  function First(lex: Lexicon, s: string): (r: Result<(Item, string), Failure>)
    requires s != []
    ensures r.Ok? ==> |r.value.1| < |s|
  {
    var (h, key) :- Head(lex, s);
    var body := s[h..];
    var v :- Value(body);
    var (after, comma, gap, rest) :- Behind(body[v..]);
    Ok((Item(key, s[..h], body[..v], after, comma, gap), rest))
  }

  /** The properties of an object whose opening bracket and first trivia have
      been read, and the unread text, which starts at the closing bracket. */
  function Properties(lex: Lexicon, s: string): (r: Result<(seq<Item>, string), Failure>)
    ensures r.Ok? ==> r.value.1 != [] && r.value.1[0] == '}' && |r.value.1| <= |s|
    decreases |s|
  {
    if s == [] then Err(IncompleteObject)
    else if s[0] == '}' then Ok(([], s))
    else
      var (it, rest) :- First(lex, s);
      var (items, end) :- Properties(lex, rest);
      Ok(([it] + items, end))
  }

  /** An object: the trivia behind its opening bracket, and its properties. */
  datatype Obj = Obj(lead: string, items: seq<Item>)

  function ObjText(o: Obj): string {
    "{" + o.lead + Text(o.items) + "}"
  }

  /** An object at the start of s, and the text behind it. */
  function Object(lex: Lexicon, s: string): Result<(Obj, string), Failure> {
    if s == [] || s[0] != '{' then Err(NotAnObject)
    else
      var body := s[1..];
      var n :- Trivia(body);
      var (items, end) :- Properties(lex, body[n..]);
      Ok((Obj(body[..n], items), end[1..]))
  }

  /** A whole configuration text: what stands before the root object, the root
      object, and what follows it. */
  datatype Doc = Doc(start: string, root: Obj, rest: string)

  function DocText(d: Doc): string {
    d.start + ObjText(d.root) + d.rest
  }

  /** Trivia at the very start, where a byte order mark may stand. */
  function StartTrivia(source: string): (n: Scan)
    ensures n.Ok? ==> n.value <= |source|
  {
    if source != [] && source[0] == BOM then Shift(1, Trivia(source[1..])) else Trivia(source)
  }

  function Parse(lex: Lexicon, source: string): Result<Doc, Failure> {
    var n :- StartTrivia(source);
    var (root, rest) :- Object(lex, source[n..]);
    Ok(Doc(source[..n], root, rest))
  }
}
