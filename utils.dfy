/**
 * The small tables and scanners of utils.go: the comma-separated token list
 * reader, the status-code reason phrases and the table of accepted request
 * methods.  Byte slices are modelled as strings of characters; the unsafe
 * byte/string conversions of the source are the identity here.
 */
module Utils {
  import opened Strs

  // ---------------------------------------------------------------------
  // parseTokenList

  /** A token: one comma-separated piece without its leading and trailing spaces (0x20). */
  function Token(piece: string): string
  {
    TrimRight(TrimLeft(piece, " "), ' ')
  }

  function TokensOf(pieces: seq<string>): seq<string>
  {
    seq(|pieces|, k requires 0 <= k < |pieces| => Token(pieces[k]))
  }

  /** The tokens of a comma-separated header value, one per comma-separated piece. */
  function TokenList(s: string): seq<string>
  {
    TokensOf(Split(s, ','))
  }

  /**
   * The scanner of the source: `start` and `end` delimit the token read so far
   * in the current piece; a space moves both only while nothing has been read,
   * a comma closes the token, any other character extends it.
   */
  method ParseTokenList(s: string) returns (list: seq<string>)
    ensures list == TokenList(s)
  {
    var start, end := 0, 0;
    list := [];
    ghost var p := 0;
    ghost var pieces: seq<string> := [];
    for i := 0 to |s|
      invariant Scanned(s, i, p, start, end)
      invariant Split(s[..i], ',') == pieces + [s[p..i]]
      invariant list == TokensOf(pieces)
    {
      SplitStep(s, i, p, pieces);
      if s[i] == ' ' {
        if start == end {
          start, end := i + 1, i + 1;
        }
        ScanSpace(s, i, p, start, end);
      } else if s[i] == ',' {
        CloseToken(s, p, start, end, i);
        TokensOfSnoc(pieces, s[p..i]);
        list := list + [s[start..end]];
        pieces := pieces + [s[p..i]];
        start, end := i + 1, i + 1;
        p := i + 1;
      } else {
        ScanOther(s, i, p, start, end);
        end := i + 1;
      }
    }
    CloseToken(s, p, start, end, |s|);
    TokensOfSnoc(pieces, s[p..|s|]);
    assert s[..|s|] == s;
    list := list + [s[start..end]];
  }

  /**
   * What the scanner knows after reading `s[..i]`: the current piece starts at
   * `p`, and `s[start..end]` is that piece without its leading and trailing spaces.
   */
  predicate Scanned(s: string, i: int, p: int, start: int, end: int)
  {
    0 <= p <= start <= end <= i <= |s|
    && (forall j :: p <= j < start ==> s[j] == ' ')
    && (forall j :: end <= j < i ==> s[j] == ' ')
    && (start < end ==> s[start] != ' ' && s[end - 1] != ' ')
    && (start == end ==> start == i)
  }

  lemma ScanSpace(s: string, i: int, p: int, start: int, end: int)
    requires 0 <= i < |s| && s[i] == ' '
    requires (start < end && Scanned(s, i, p, start, end)) || (start == end == i + 1 && Scanned(s, i, p, i, i))
    ensures Scanned(s, i + 1, p, start, end)
  {
  }

  lemma ScanOther(s: string, i: int, p: int, start: int, end: int)
    requires 0 <= i < |s| && s[i] != ' '
    requires Scanned(s, i, p, start, end)
    ensures Scanned(s, i + 1, p, start, i + 1)
  {
  }

  lemma CloseToken(s: string, p: nat, start: nat, end: nat, i: nat)
    requires Scanned(s, i, p, start, end)
    ensures Token(s[p..i]) == s[start..end]
    ensures Scanned(s, i + 1, i + 1, i + 1, i + 1) || i == |s|
  {
    var piece := s[p..i];
    forall j | 0 <= j < start - p
      ensures piece[j] == ' '
    {
      assert piece[j] == s[p + j];
    }
    forall j | end - p <= j < |piece|
      ensures piece[j] == ' '
    {
      assert piece[j] == s[p + j];
    }
    TokenBounds(piece, start - p, end - p);
    forall j | 0 <= j < end - start
      ensures piece[start - p..end - p][j] == s[start..end][j]
    {
      assert piece[start - p + j] == s[start + j];
    }
  }

  lemma SplitStep(s: string, i: nat, p: nat, pieces: seq<string>)
    requires p <= i < |s|
    requires Split(s[..i], ',') == pieces + [s[p..i]]
    ensures s[i] == ',' ==> Split(s[..i + 1], ',') == (pieces + [s[p..i]]) + [s[i + 1..i + 1]]
    ensures s[i] != ',' ==> Split(s[..i + 1], ',') == pieces + [s[p..i + 1]]
  {
    SplitSnoc(s[..i], s[i], ',');
    assert s[..i + 1] == s[..i] + [s[i]];
    assert s[p..i + 1] == s[p..i] + [s[i]];
    var init := pieces + [s[p..i]];
    assert init[..|init| - 1] == pieces;
    assert s[i + 1..i + 1] == "";
  }

  lemma TokensOfSnoc(pieces: seq<string>, piece: string)
    ensures TokensOf(pieces + [piece]) == TokensOf(pieces) + [Token(piece)]
  {
  }

  /** The token of a piece is the piece between its leading and trailing spaces. */
  lemma TokenBounds(piece: string, a: nat, b: nat)
    requires a <= b <= |piece|
    requires forall j :: 0 <= j < a ==> piece[j] == ' '
    requires forall j :: b <= j < |piece| ==> piece[j] == ' '
    requires a < b ==> piece[a] != ' ' && piece[b - 1] != ' '
    ensures Token(piece) == piece[a..b]
  {
    var lead, mid, tail := piece[..a], piece[a..b], piece[b..];
    Cut3(piece, a, b);
    if a < b {
      assert mid[0] == piece[a] && mid[|mid| - 1] == piece[b - 1];
      TrimLeftRun(lead, mid + tail, " ");
      TrimRightRun(mid, tail, ' ');
    } else {
      assert piece == piece + "";
      TrimLeftRun(piece, "", " ");
    }
  }

  /** Spaces inside a token are kept: padding `t` with spaces gives back `t`. */
  lemma TokenOfPadded(lead: nat, t: string, trail: nat)
    requires t == "" || (t[0] != ' ' && t[|t| - 1] != ' ')
    ensures Token(Spaces(lead) + t + Spaces(trail)) == t
  {
    var piece := Spaces(lead) + t + Spaces(trail);
    if t == "" {
      assert piece == Spaces(lead) + Spaces(trail);
      TokenBounds(piece, lead, lead);
      assert piece[lead..lead] == t;
    } else {
      TokenBounds(piece, lead, lead + |t|);
      assert piece[lead..lead + |t|] == t;
    }
  }

  function Spaces(n: nat): (r: string)
    ensures |r| == n && forall j :: 0 <= j < n ==> r[j] == ' '
  {
    seq(n, _ => ' ')
  }

  /** A token has no space at either end, and holds no character its piece lacks. */
  lemma TokenShape(piece: string)
    ensures Token(piece) == "" || (Token(piece)[0] != ' ' && Token(piece)[|Token(piece)| - 1] != ' ')
    ensures forall j :: 0 <= j < |Token(piece)| ==> Token(piece)[j] in piece
  {
    var l := TrimLeft(piece, " ");
    TrimLeftCutset(piece, " ");
    TrimRightPrefix(l, ' ');
    var t := Token(piece);
    forall j | 0 <= j < |t|
      ensures t[j] in piece
    {
      assert t[j] == l[j];
      assert l[j] == piece[|piece| - |l| + j];
    }
  }

  /**
   * parseTokenList yields one token more than there are commas; no token
   * holds a comma or starts or ends with a space; the empty value yields one
   * empty token.
   */
  lemma TokenListShape(s: string)
    ensures |TokenList(s)| == Count(s, ',') + 1
    ensures forall k :: 0 <= k < |TokenList(s)| ==>
      ',' !in TokenList(s)[k]
      && (TokenList(s)[k] == "" || (TokenList(s)[k][0] != ' ' && TokenList(s)[k][|TokenList(s)[k]| - 1] != ' '))
    ensures s == "" ==> TokenList(s) == [""]
  {
    var pieces := Split(s, ',');
    SplitPieces(s, ',');
    forall k | 0 <= k < |pieces|
      ensures ',' !in Token(pieces[k])
      ensures Token(pieces[k]) == "" || (Token(pieces[k])[0] != ' ' && Token(pieces[k])[|Token(pieces[k])| - 1] != ' ')
    {
      TokenShape(pieces[k]);
    }
  }

  // ---------------------------------------------------------------------
  // statusMessages

  /**
   * The reason phrase of a status code, as the framework's table gives it; a
   * code the table does not know reads as the empty phrase (Go's zero value).
   */
  function StatusMessage(code: int): string
  {
    match code
      case 100 => "Continue"
      case 101 => "Switching Protocols"
      case 102 => "Processing"
      case 103 => "Early Hints"
      case 200 => "OK"
      case 201 => "Created"
      case 202 => "Accepted"
      case 203 => "Non-Authoritative Information"
      case 204 => "No Content"
      case 205 => "Reset Content"
      case 206 => "Partial Content"
      case 207 => "Multi-Status"
      case 208 => "Already Reported"
      case 226 => "IM Used"
      case 300 => "Multiple Choices"
      case 301 => "Moved Permanently"
      case 302 => "Found"
      case 303 => "See Other"
      case 304 => "Not Modified"
      case 305 => "Use Proxy"
      case 306 => "Switch Proxy"
      case 307 => "Temporary Redirect"
      case 308 => "Permanent Redirect"
      case 400 => "Bad Request"
      case 401 => "Unauthorized"
      case 402 => "Payment Required"
      case 403 => "Forbidden"
      case 404 => "Not Found"
      case 405 => "Method Not Allowed"
      case 406 => "Not Acceptable"
      case 407 => "Proxy Authentication Required"
      case 408 => "Request Timeout"
      case 409 => "Conflict"
      case 410 => "Gone"
      case 411 => "Length Required"
      case 412 => "Precondition Failed"
      case 413 => "Request Entity Too Large"
      case 414 => "Request URI Too Long"
      case 415 => "Unsupported Media Type"
      case 416 => "Requested Range Not Satisfiable"
      case 417 => "Expectation Failed"
      case 418 => "I'm a teapot"
      case 421 => "Misdirected Request"
      case 422 => "Unprocessable Entity"
      case 423 => "Locked"
      case 424 => "Failed Dependency"
      case 426 => "Upgrade Required"
      case 428 => "Precondition Required"
      case 429 => "Too Many Requests"
      case 431 => "Request Header Fields Too Large"
      case 451 => "Unavailable For Legal Reasons"
      case 500 => "Internal Server Error"
      case 501 => "Not Implemented"
      case 502 => "Bad Gateway"
      case 503 => "Service Unavailable"
      case 504 => "Gateway Timeout"
      case 505 => "HTTP Version Not Supported"
      case 506 => "Variant Also Negotiates"
      case 507 => "Insufficient Storage"
      case 508 => "Loop Detected"
      case 510 => "Not Extended"
      case 511 => "Network Authentication Required"
      case _ => ""
  }

  /** Only codes from 100 to 511 have a phrase; 404 is "Not Found". */
  lemma StatusMessageRange(code: int)
    ensures StatusMessage(code) != "" ==> 100 <= code <= 511
    ensures StatusMessage(404) == "Not Found"
  {
  }

  // ---------------------------------------------------------------------
  // Request methods

  const MethodGet := "GET"
  const MethodHead := "HEAD"
  const MethodPost := "POST"
  const MethodPut := "PUT"
  const MethodPatch := "PATCH"
  const MethodDelete := "DELETE"
  const MethodConnect := "CONNECT"
  const MethodOptions := "OPTIONS"
  const MethodTrace := "TRACE"

  /** The nine request methods and their numbers. */
  const MethodINT: map<string, nat> := map[
    MethodGet := 0, MethodHead := 1, MethodPost := 2, MethodPut := 3, MethodDelete := 4,
    MethodConnect := 5, MethodOptions := 6, MethodTrace := 7, MethodPatch := 8
  ]

  /** The method check of the source: a number other than 0, or GET itself (whose number is 0). */
  predicate AcceptedMethod(m: string)
  {
    (if m in MethodINT then MethodINT[m] else 0) != 0 || m == MethodGet
  }

  /** The zero-value test accepts exactly the nine methods of the table. */
  lemma AcceptedMethodIff(m: string)
    ensures AcceptedMethod(m) <==> m in MethodINT
    ensures |MethodINT| == 9
  {
    assert MethodINT.Keys == {MethodGet, MethodHead, MethodPost, MethodPut, MethodDelete,
      MethodConnect, MethodOptions, MethodTrace, MethodPatch};
  }
}
