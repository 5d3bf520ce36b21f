/**
 * `dataURLtoFile`: turns a data URL such as `data:image/png;base64,iVBOR...`
 * back into a `File`, as the Edit mode does with the previously generated
 * image. The MIME type comes from the regular expression `:(.*?);` applied to
 * the text before the first comma; the body after the comma goes through the
 * browser's base64 decoder `atob`, and the decoded characters are copied,
 * one character code per byte, into a fresh byte array.
 */
module DataUrl {
  import opened Outcomes

  /** An element of a `Uint8Array`. */
  newtype uint8 = x: int | 0 <= x < 0x100

  /** A browser `File`: its bytes, its name and its MIME type. */
  datatype File = File(bytes: seq<uint8>, name: string, mimeType: string)

  const InvalidDataUrlMessage := "Invalid data URL"

  /** Index of the first `c` in `s`, or `|s|` when `s` holds none. */
  function IndexOf(s: string, c: char): (i: nat)
    ensures i <= |s|
    ensures i < |s| ==> s[i] == c
    ensures forall t :: 0 <= t < i ==> s[t] != c
  {
    if s == [] then 0
    else if s[0] == c then 0
    else 1 + IndexOf(s[1..], c)
  }

  /** `dataurl.split(',')[0]`: the text before the first comma, or all of it. */
  function Head(url: string): (h: string)
    ensures h <= url && ',' !in h
    ensures |h| < |url| ==> url[|h|] == ','
  {
    url[..IndexOf(url, ',')]
  }

  /**
   * `dataurl.split(',')[1]` as `atob` receives it: the text between the first
   * and the second comma. When there is no comma the element is `undefined`,
   * which `atob` converts to the text "undefined".
   */
  function Payload(url: string): (p: string)
    ensures ',' !in url ==> p == "undefined"
    ensures ',' in url ==> Head(url) + [','] + p <= url && ',' !in p
    ensures ',' in url && |Head(url)| + 1 + |p| < |url| ==> url[|Head(url)| + 1 + |p|] == ','
  {
    var i := IndexOf(url, ',');
    if i == |url| then "undefined" else Head(url[i + 1..])
  }

  /** The characters that `.` in a JavaScript regular expression does not match. */
  predicate IsLineTerminator(c: char)
  {
    c == '\n' || c == '\r' || c == '\U{2028}' || c == '\U{2029}'
  }

  /**
   * `:(.*?);` matches `h` from the colon at `i` to the semicolon at `k`: every
   * character in between is matched by `.` (so is no line terminator), and the
   * lazy `*?` stops at the first semicolon.
   */
  predicate MatchesAt(h: string, i: int, k: int)
  {
    0 <= i < k < |h| && h[i] == ':' && h[k] == ';' &&
    forall t :: i < t < k ==> h[t] != ';' && !IsLineTerminator(h[t])
  }

  /** Where the lazy group starting at `k` stops: the first `;` or line terminator at or after `k`. */
  function GroupStop(h: string, k: nat): (e: nat)
    requires k <= |h|
    decreases |h| - k
    ensures k <= e <= |h|
    ensures e < |h| ==> h[e] == ';' || IsLineTerminator(h[e])
    ensures forall t :: k <= t < e ==> h[t] != ';' && !IsLineTerminator(h[t])
  {
    if k == |h| then k
    else if h[k] == ';' || IsLineTerminator(h[k]) then k
    else GroupStop(h, k + 1)
  }

  /** Given its colon, a match has only one possible end: where the group stops. */
  lemma MatchEnd(h: string, i: nat, k: int)
    requires i < |h|
    ensures MatchesAt(h, i, k) <==>
              h[i] == ':' && k == GroupStop(h, i + 1) && k < |h| && h[k] == ';'
  {
  }

  /** The positions of the colon and the semicolon of a match. */
  datatype Span = Span(colon: nat, semi: nat)

  /**
   * `h.match(/:(.*?);/)` searching from index `p`: the leftmost colon at which
   * the pattern matches, with the end of that match.
   */
  function FindGroup(h: string, p: nat): (r: Option<Span>)
    decreases |h| - p
    ensures r.Some? ==> p <= r.value.colon && MatchesAt(h, r.value.colon, r.value.semi)
    ensures r.Some? ==> forall i, k :: p <= i < r.value.colon ==> !MatchesAt(h, i, k)
    ensures r.None? ==> forall i, k :: p <= i ==> !MatchesAt(h, i, k)
  {
    if p >= |h| then None
    else
      var e := GroupStop(h, p + 1);
      MatchEnd(h, p, e);
      if h[p] == ':' && e < |h| && h[e] == ';' then Some(Span(p, e))
      else
        var r := FindGroup(h, p + 1);
        assert forall k :: !MatchesAt(h, p, k) by {
          forall k ensures !MatchesAt(h, p, k) { MatchEnd(h, p, k); }
        }
        r
  }

  /** `mimeMatch[1]`: the captured group of `:(.*?);` in `head`, if the pattern matches. */
  function MimeType(head: string): (m: Option<string>)
    ensures m.None? <==> forall i, k :: !MatchesAt(head, i, k)
    ensures m.Some? ==> exists i, k :: MatchesAt(head, i, k) && m.value == head[i + 1..k] &&
                                      forall i', k' :: 0 <= i' < i ==> !MatchesAt(head, i', k')
  {
    match FindGroup(head, 0)
    case None => None
    case Some(span) => Some(head[span.colon + 1..span.semi])
  }

  /** No character of `s` is a line terminator. */
  predicate SingleLine(s: string)
  {
    forall t :: 0 <= t < |s| ==> !IsLineTerminator(s[t])
  }

  /** A match at the first colon of `h` is the one the search reports. */
  lemma LeftmostMatch(h: string, c: nat, e: nat)
    requires MatchesAt(h, c, e)
    requires forall t :: 0 <= t < c ==> h[t] != ':'
    ensures FindGroup(h, 0) == Some(Span(c, e))
  {
    var r := FindGroup(h, 0);
    assert r.Some?;
    assert r.value.colon <= c;
    assert h[r.value.colon] == ':';
    MatchEnd(h, c, e);
    MatchEnd(h, c, r.value.semi);
  }

  /** The index of the first `;` after `c`, counted within the rest of the text. */
  lemma NextIndex(h: string, c: nat, e: nat)
    requires c < e < |h| && h[e] == ';'
    requires forall t :: c < t < e ==> h[t] != ';'
    ensures IndexOf(h[c + 1..], ';') == e - (c + 1)
  {
    var rest := h[c + 1..];
    assert rest[e - (c + 1)] == ';';
    assert forall t :: 0 <= t < e - (c + 1) ==> rest[t] == h[c + 1 + t] && rest[t] != ';';
  }

  /**
   * On text without line breaks (every data URL in practice), a colon that is
   * followed later by a semicolon makes the pattern match at the first colon,
   * and the MIME type is the shortest text between that colon and the next `;`.
   */
  lemma MimeTypeOnSingleLine(head: string, i: nat, j: nat)
    requires SingleLine(head)
    requires i < j < |head| && head[i] == ':' && head[j] == ';'
    ensures IndexOf(head, ':') < |head|
    ensures MimeType(head) ==
              var rest := head[IndexOf(head, ':') + 1..];
              Some(rest[..IndexOf(rest, ';')])
  {
    var c := IndexOf(head, ':');
    assert c <= i;
    var e := GroupStop(head, c + 1);
    assert e <= j;
    assert !IsLineTerminator(head[e]);
    assert MatchesAt(head, c, e);
    LeftmostMatch(head, c, e);
    NextIndex(head, c, e);
    var rest := head[c + 1..];
    assert rest[..IndexOf(rest, ';')] == head[c + 1..e];
    assert MimeType(head) == Some(head[c + 1..e]);
  }

  /** Conversely, whenever the pattern matches, some colon is followed later by a semicolon. */
  lemma MimeTypeNeedsColonThenSemicolon(head: string)
    requires MimeType(head).Some?
    ensures exists i, j :: 0 <= i < j < |head| && head[i] == ':' && head[j] == ';'
  {
    assert FindGroup(head, 0).Some?;
    var span := FindGroup(head, 0).value;
    assert MatchesAt(head, span.colon, span.semi);
    assert 0 <= span.colon < span.semi < |head| && head[span.colon] == ':' && head[span.semi] == ';';
  }

  /** A `Uint8Array` element store: the value is reduced modulo 2^8 (`ToUint8`). */
  function ToUint8(c: char): (b: uint8)
    ensures (c as int) < 0x100 ==> b as int == c as int
    ensures (c as int - b as int) % 0x100 == 0
  {
    ((c as int) % 0x100) as uint8
  }

  /** The bytes the copy loop leaves in the array for the decoded text `s`. */
  function CharCodes(s: string): (b: seq<uint8>)
    ensures |b| == |s|
    ensures forall i :: 0 <= i < |s| ==> b[i] == ToUint8(s[i])
  {
    seq(|s|, i requires 0 <= i < |s| => ToUint8(s[i]))
  }

  /**
   * The copy loop: a zeroed byte array as long as the decoded text, filled
   * from its last element down to its first with each character code.
   */
  method CopyCharCodes(bstr: string) returns (u8arr: array<uint8>)
    ensures u8arr.Length == |bstr|
    ensures forall i :: 0 <= i < |bstr| ==> u8arr[i] == ToUint8(bstr[i])
  {
    var n := |bstr|;
    u8arr := new uint8[n];
    while n > 0
      invariant 0 <= n <= |bstr| == u8arr.Length
      invariant forall i :: n <= i < |bstr| ==> u8arr[i] == ToUint8(bstr[i])
    {
      n := n - 1;
      u8arr[n] := ToUint8(bstr[n]);
    }
  }

  /**
   * What `dataURLtoFile(url, filename)` returns or throws, with `atob` as the
   * browser's decoder: `Invalid data URL` when the head has no MIME type,
   * whatever `atob` throws, otherwise a file of the decoded character codes.
   */
  function ConvertDataUrl(url: string, filename: string, atob: string -> Outcome<string>): (r: Outcome<File>)
    ensures MimeType(Head(url)).None? ==> r == Err(Some(InvalidDataUrlMessage))
    ensures MimeType(Head(url)).Some? && atob(Payload(url)).Err? ==> r == Err(atob(Payload(url)).message)
    ensures r.Ok? <==> MimeType(Head(url)).Some? && atob(Payload(url)).Ok?
    ensures r.Ok? ==> r.value.name == filename && r.value.mimeType == MimeType(Head(url)).value
    ensures r.Ok? ==> |r.value.bytes| == |atob(Payload(url)).value| &&
                      forall i :: 0 <= i < |r.value.bytes| ==>
                        r.value.bytes[i] == ToUint8(atob(Payload(url)).value[i])
  {
    match MimeType(Head(url))
    case None => Err(Some(InvalidDataUrlMessage))
    case Some(mime) =>
      match atob(Payload(url))
      case Err(message) => Err(message)
      case Ok(bstr) => Ok(File(CharCodes(bstr), filename, mime))
  }

  /** `dataURLtoFile`, step by step, with the byte array filled by the backwards loop. */
  method DataUrlToFile(dataurl: string, filename: string, atob: string -> Outcome<string>)
    returns (r: Outcome<File>)
    ensures r == ConvertDataUrl(dataurl, filename, atob)
  {
    var head := Head(dataurl);
    var mimeMatch := FindGroup(head, 0);
    if mimeMatch.None? {
      return Err(Some(InvalidDataUrlMessage));
    }
    var mime := head[mimeMatch.value.colon + 1..mimeMatch.value.semi];
    var decoded := atob(Payload(dataurl));
    if decoded.Err? {
      return Err(decoded.message);
    }
    var bstr := decoded.value;
    var u8arr := CopyCharCodes(bstr);
    assert u8arr[..] == CharCodes(bstr);
    return Ok(File(u8arr[..], filename, mime));
  }

  /** The text whose character codes are the given bytes (what `btoa` encodes). */
  function Latin1(bytes: seq<uint8>): (s: string)
    ensures |s| == |bytes|
    ensures forall i :: 0 <= i < |s| ==> s[i] as int == bytes[i] as int
  {
    seq(|bytes|, i requires 0 <= i < |bytes| => bytes[i] as char)
  }

  /** A MIME type that can stand between `data:` and `;base64,` and be read back whole. */
  predicate PlainMimeType(mime: string)
  {
    ',' !in mime && ';' !in mime && SingleLine(mime)
  }

  /** The data URL of a file, `data:<mime>;base64,<body>`, with `btoa` as the encoder. */
  function ToDataUrl(f: File, btoa: string -> string): string
  {
    "data:" + f.mimeType + ";base64," + btoa(Latin1(f.bytes))
  }

  /** Splitting `a,b...` at the first comma, where `a` has none, gives back `a`. */
  lemma HeadOfJoin(a: string, rest: string)
    requires ',' !in a
    ensures Head(a + [','] + rest) == a
  {
    var u := a + [','] + rest;
    assert u[|a|] == ',';
    assert forall t :: 0 <= t < |a| ==> u[t] == a[t] && u[t] != ',';
  }

  /** Text without a comma is its own first field. */
  lemma HeadOfPlain(a: string)
    requires ',' !in a
    ensures Head(a) == a
  {
    assert forall t :: 0 <= t < |a| ==> a[t] != ',';
  }

  /** The head `data:<mime>;base64` of a data URL yields `mime` as its MIME type. */
  lemma MimeTypeOfDataHead(mime: string)
    requires PlainMimeType(mime)
    ensures MimeType("data:" + mime + ";base64") == Some(mime)
  {
    var head := "data:" + mime + ";base64";
    var semi := 5 + |mime|;
    assert forall t :: 5 <= t < semi ==> head[t] == mime[t - 5];
    assert head[4] == ':' && head[semi] == ';';
    assert MatchesAt(head, 4, semi);
    LeftmostMatch(head, 4, semi);
    assert head[5..semi] == mime;
  }

  /** Reading back the character codes of `Latin1(bytes)` gives the bytes. */
  lemma CharCodesOfLatin1(bytes: seq<uint8>)
    ensures CharCodes(Latin1(bytes)) == bytes
  {
    var s := Latin1(bytes);
    forall i | 0 <= i < |bytes| ensures ToUint8(s[i]) == bytes[i] {
      assert s[i] as int == bytes[i] as int;
    }
  }

  /**
   * Converting the data URL of a file gives the file back: same MIME type,
   * same bytes, provided the decoder inverts the encoder and the encoded body
   * holds no comma (base64 never does).
   */
  lemma {:induction false} RoundTrip(f: File, btoa: string -> string, atob: string -> Outcome<string>)
    requires PlainMimeType(f.mimeType)
    requires ',' !in btoa(Latin1(f.bytes))
    requires atob(btoa(Latin1(f.bytes))) == Ok(Latin1(f.bytes))
    ensures ConvertDataUrl(ToDataUrl(f, btoa), f.name, atob) == Ok(f)
  {
    var mime, body := f.mimeType, btoa(Latin1(f.bytes));
    var head := "data:" + mime + ";base64";
    var url := ToDataUrl(f, btoa);
    assert url == head + [','] + body;
    assert forall t :: 5 <= t < 5 + |mime| ==> head[t] == mime[t - 5];
    assert ',' !in head;
    HeadOfJoin(head, body);
    assert IndexOf(url, ',') == |head|;
    assert url[|head| + 1..] == body;
    HeadOfPlain(body);
    assert Payload(url) == body;
    MimeTypeOfDataHead(mime);
    CharCodesOfLatin1(f.bytes);
  }
}
