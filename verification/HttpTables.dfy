/** Character classes, matcher strings and the per-byte tables of the HTTP/1.x parser.
    A byte is a `char`; bytes 128 and above are the chars from 128 up. */
module HttpTables {

  const CR := '\r'
  const LF := '\n'
  const NUL := '\0'

  /** `CROW_LOWER`: sets bit five of the byte. */
  function Lower(c: char): char {
    if c < 256 as char && (c as int / 32) % 2 == 0 then (c as int + 32) as char else c
  }

  predicate IsAlpha(c: char) { 'a' <= c <= 'z' || 'A' <= c <= 'Z' }

  predicate IsNum(c: char) { '0' <= c <= '9' }

  /** Header-name characters; `TokenOf` is the lower-cased entry of the token table. */
  predicate IsToken(c: char) {
    IsAlpha(c) || IsNum(c) || c in "!#$%&'*+-.^_`|~"
  }

  function TokenOf(c: char): char {
    if 'A' <= c <= 'Z' then (c as int + 32) as char else c
  }

  predicate IsHeaderChar(c: char) {
    c == CR || c == LF || c == '\t' || (' ' <= c && c != 127 as char)
  }

  predicate IsUrlChar(c: char) { '!' <= c <= '~' && c != '#' && c != '?' }

  predicate IsUserInfoChar(c: char) {
    IsAlpha(c) || IsNum(c) || c in "-_.!~*'()%;:&=+$,"
  }

  /** The digit a byte stands for in a chunk size, or -1. Only the first 128 entries of the
      source's table are written out, so every byte from 128 up reads as zero. */
  function Unhex(c: char): (v: int)
    ensures -1 <= v < 16
  {
    if '0' <= c <= '9' then c as int - '0' as int
    else if 'a' <= c <= 'f' then c as int - 'a' as int + 10
    else if 'A' <= c <= 'F' then c as int - 'A' as int + 10
    else if c < 128 as char then -1
    else 0
  }

  /** Reading a C string: the terminator follows the last character. */
  function StrAt(s: string, i: nat): char {
    if i < |s| then s[i] else NUL
  }

  datatype Method =
    | Delete | Get | Head | Post | Put | Connect | Options | Trace | Patch | Purge
    | Copy | Lock | MkCol | Move | Propfind | Proppatch | Search | Unlock | Bind | Rebind
    | Unbind | Acl | Report | MkActivity | Checkout | Merge | MSearch | Notify | Subscribe
    | Unsubscribe | MkCalendar | Link | Unlink | Source

  function MethodString(m: Method): string {
    match m
    case Delete => "DELETE" case Get => "GET" case Head => "HEAD" case Post => "POST"
    case Put => "PUT" case Connect => "CONNECT" case Options => "OPTIONS" case Trace => "TRACE"
    case Patch => "PATCH" case Purge => "PURGE" case Copy => "COPY" case Lock => "LOCK"
    case MkCol => "MKCOL" case Move => "MOVE" case Propfind => "PROPFIND"
    case Proppatch => "PROPPATCH" case Search => "SEARCH" case Unlock => "UNLOCK"
    case Bind => "BIND" case Rebind => "REBIND" case Unbind => "UNBIND" case Acl => "ACL"
    case Report => "REPORT" case MkActivity => "MKACTIVITY" case Checkout => "CHECKOUT"
    case Merge => "MERGE" case MSearch => "M-SEARCH" case Notify => "NOTIFY"
    case Subscribe => "SUBSCRIBE" case Unsubscribe => "UNSUBSCRIBE"
    case MkCalendar => "MKCALENDAR" case Link => "LINK" case Unlink => "UNLINK"
    case Source => "SOURCE"
  }

  /** A method, if the letters so far can still be one. */
  datatype Guess = Known(verb: Method) | Unknown

  /** The next byte of the buffer, if there is one. */
  datatype Peek = End | Byte(ch: char)

  /** The method first guessed from the first letter of the request line. */
  function FirstGuess(c: char): Guess {
    match c
    case 'A' => Known(Acl) case 'B' => Known(Bind) case 'C' => Known(Connect)
    case 'D' => Known(Delete) case 'G' => Known(Get) case 'H' => Known(Head)
    case 'L' => Known(Lock) case 'M' => Known(MkCol) case 'N' => Known(Notify)
    case 'O' => Known(Options) case 'P' => Known(Post) case 'R' => Known(Report)
    case 'S' => Known(Subscribe) case 'T' => Known(Trace) case 'U' => Known(Unlock)
    case _ => Unknown
  }

  /** Revision of the guess at the first letter that contradicts it. */
  function Revise(m: Method, index: nat, c: char): Guess {
    match (m, index, c)
    case (Post, 1, 'U') => Known(Put)
    case (Post, 1, 'A') => Known(Patch)
    case (Post, 1, 'R') => Known(Propfind)
    case (Put, 2, 'R') => Known(Purge)
    case (Connect, 1, 'H') => Known(Checkout)
    case (Connect, 2, 'P') => Known(Copy)
    case (MkCol, 1, 'O') => Known(Move)
    case (MkCol, 1, 'E') => Known(Merge)
    case (MkCol, 1, '-') => Known(MSearch)
    case (MkCol, 2, 'A') => Known(MkActivity)
    case (MkCol, 3, 'A') => Known(MkCalendar)
    case (Subscribe, 1, 'E') => Known(Search)
    case (Subscribe, 1, 'O') => Known(Source)
    case (Report, 2, 'B') => Known(Rebind)
    case (Propfind, 4, 'P') => Known(Proppatch)
    case (Lock, 1, 'I') => Known(Link)
    case (Unlock, 2, 'S') => Known(Unsubscribe)
    case (Unlock, 2, 'B') => Known(Unbind)
    case (Unlock, 3, 'I') => Known(Unlink)
    case _ => Unknown
  }
}
