/** The optional value, the blank characters and the digits the other modules share. */
module Prelude {
  datatype Option<+T> = None | Some(value: T) {
    function GetOr(default: T): T {
      match this
      case Some(v) => v
      case None => default
    }
  }

  /** `later` when it says something, otherwise `earlier`. */
  function Latest<T>(earlier: Option<T>, later: Option<T>): Option<T> {
    if later.Some? then later else earlier
  }

  function MapOption<A, B>(f: A -> B, value: Option<A>): Option<B> {
    match value
    case None => None
    case Some(a) => Some(f(a))
  }

  /** The characters Unicode calls white space. */
  const BLANKS: set<char> := {' ', '\t', '\n', '\r', '\U{0B}', '\U{0C}', '\U{85}', '\U{A0}', '\U{1680}',
    '\U{2000}', '\U{2001}', '\U{2002}', '\U{2003}', '\U{2004}', '\U{2005}', '\U{2006}', '\U{2007}',
    '\U{2008}', '\U{2009}', '\U{200A}', '\U{2028}', '\U{2029}', '\U{202F}', '\U{205F}', '\U{3000}'}

  predicate Blank(text: string) {
    forall c <- text :: c in BLANKS
  }

  /** The usual digits of a number. */
  function Decimal(n: nat): (digits: string)
    ensures digits != []
  {
    if n < 10 then [DigitOf(n)] else Decimal(n / 10) + [DigitOf(n % 10)]
  }

  function DigitOf(n: nat): (digit: char)
    requires n < 10
    ensures '0' <= digit <= '9' && digit as int == '0' as int + n
  {
    ('0' as int + n) as char
  }
}
