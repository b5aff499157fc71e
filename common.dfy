/** Values shared by every page: optional values, the outcome of one backend
    request, the request a handler sends, and the JavaScript string
    primitives the handlers rely on (truthiness, `String.prototype.trim`,
    `a || b` on messages). */
module Common {

  datatype Option<T> = None | Some(value: T)

  /** What one awaited backend request produced: the response body, or a
      rejection carrying `err.response?.data?.message` when the server sent one. */
  datatype Response<T> = Ok(body: T) | Err(message: Option<string>)

  datatype Verb = Get | Post | Put | Delete

  /** A request handed to the transport; its body, where it has one, is
      returned beside it by the handler that sends it. */
  datatype Request = Request(verb: Verb, url: string)

  /** `POST /auth/logout`, the request every logout button sends. */
  const LogoutRequest: Request := Request(Post, "/auth/logout")

  /** The characters JavaScript counts as white space, both for `trim()` and
      for the regular-expression class `\s`: WhiteSpace (tab, vertical tab,
      form feed, space, no-break space, byte-order mark and the other Zs
      characters) and LineTerminator (LF, CR, LS, PS). */
  predicate IsSpace(c: char) {
    var n := c as int;
    n == 0x09 || n == 0x0A || n == 0x0B || n == 0x0C || n == 0x0D
    || n == 0x20 || n == 0xA0 || n == 0x1680
    || (0x2000 <= n <= 0x200A)
    || n == 0x2028 || n == 0x2029 || n == 0x202F || n == 0x205F
    || n == 0x3000 || n == 0xFEFF
  }

  ghost predicate AllSpace(s: string) {
    forall k :: 0 <= k < |s| ==> IsSpace(s[k])
  }

  /** `s.trimStart()`: the suffix of `s` left after its leading white space. */
  function TrimStart(s: string): (r: string)
    ensures |r| <= |s| && r == s[|s| - |r|..]
    ensures AllSpace(s[..|s| - |r|])
    ensures r != [] ==> !IsSpace(r[0])
  {
    if s != [] && IsSpace(s[0]) then TrimStart(s[1..]) else s
  }

  /** `s.trimEnd()`: the prefix of `s` left before its trailing white space. */
  function TrimEnd(s: string): (r: string)
    ensures |r| <= |s| && r == s[..|r|]
    ensures AllSpace(s[|r|..])
    ensures r != [] ==> !IsSpace(r[|r| - 1])
  {
    if s != [] && IsSpace(s[|s| - 1]) then TrimEnd(s[..|s| - 1]) else s
  }

  /** `s.trim()`. */
  function Trim(s: string): string {
    TrimEnd(TrimStart(s))
  }

  /** `!s.trim()`: the guard the todo handlers use to ignore blank input. */
  predicate IsBlank(s: string) {
    Trim(s) == ""
  }

  /** Trimming yields the empty string exactly when every character is white space. */
  lemma BlankIffAllSpace(s: string)
    ensures IsBlank(s) <==> AllSpace(s)
  {
    var t := TrimStart(s);
    var cut := |s| - |t|;
    if t == [] {
      assert s[..cut] == s;
    } else {
      assert t[0] == s[cut];
      assert !AllSpace(t);
    }
  }

  /** `server || fallback` where `server` is the message the server sent: an
      absent or empty message falls back (the empty string is falsy). */
  function MessageOr(server: Option<string>, fallback: string): (m: string)
    ensures server.Some? && server.value != "" ==> m == server.value
    ensures server.None? || server.value == "" ==> m == fallback
  {
    match server
    case Some(text) => if text != "" then text else fallback
    case None => fallback
  }
}
