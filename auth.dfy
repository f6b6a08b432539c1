/**
 * The header check of the ordering service's authentication middleware:
 * the Authorization header must be present and, split on single spaces,
 * consist of exactly the word "Bearer" and the token. Token verification is
 * given from outside as `verify`, which yields the user id of a valid token.
 */
module Auth {
  import opened Wrappers

  datatype AuthError =
    | MissingHeader     // 401, "Authorization header is required"
    | MalformedHeader   // 401, not of the form "Bearer {token}"
    | InvalidToken      // 401, the token did not verify

  /** strings.Split(s, " "): the pieces between single spaces, empty ones included. */
  function Split(s: string): (parts: seq<string>)
    ensures |parts| >= 1
    ensures forall i :: 0 <= i < |parts| ==> ' ' !in parts[i]
  {
    if s == [] then [""]
    else
      var rest := Split(s[1..]);
      if s[0] == ' ' then [""] + rest
      else [[s[0]] + rest[0]] + rest[1..]
  }

  /** strings.Join(parts, " "), the inverse of Split. */
  function Join(parts: seq<string>): string
    requires |parts| >= 1
  {
    if |parts| == 1 then parts[0] else parts[0] + " " + Join(parts[1..])
  }

  function Spaces(s: string): nat
  {
    if s == [] then 0 else (if s[0] == ' ' then 1 else 0) + Spaces(s[1..])
  }

  lemma {:induction false} JoinSplit(s: string)
    ensures Join(Split(s)) == s
  {
    if s != [] {
      JoinSplit(s[1..]);
      var rest := Split(s[1..]);
      if s[0] != ' ' && |rest| > 1 {
        assert Join(rest) == rest[0] + " " + Join(rest[1..]);
      }
    }
  }

  lemma {:induction false} SplitJoin(parts: seq<string>)
    requires |parts| >= 1
    requires forall i :: 0 <= i < |parts| ==> ' ' !in parts[i]
    ensures Split(Join(parts)) == parts
  {
    if |parts| == 1 {
      SplitWithoutSpace(parts[0]);
    } else {
      SplitJoin(parts[1..]);
      SplitPrefix(parts[0], Join(parts[1..]));
      assert [parts[0]] + parts[1..] == parts;
    }
  }

  lemma {:induction false} SplitWithoutSpace(s: string)
    requires ' ' !in s
    ensures Split(s) == [s]
  {
    if s != [] {
      SplitWithoutSpace(s[1..]);
      assert [s[0]] + s[1..] == s;
    }
  }

  /** A space-free word followed by a space splits off as the first part. */
  lemma {:induction false} SplitPrefix(w: string, tail: string)
    requires ' ' !in w
    ensures Split(w + " " + tail) == [w] + Split(tail)
  {
    if w == [] {
      assert w + " " + tail == " " + tail;
      assert (" " + tail)[1..] == tail;
    } else {
      var s := w + " " + tail;
      assert s[1..] == w[1..] + " " + tail;
      SplitPrefix(w[1..], tail);
      assert [s[0]] + w[1..] == w;
    }
  }

  /** Split yields one more part than the string has spaces. */
  lemma {:induction false} SplitCount(s: string)
    ensures |Split(s)| == Spaces(s) + 1
  {
    if s != [] {
      SplitCount(s[1..]);
    }
  }

  /** The format check and token extraction of AuthMiddleware. */
  function BearerToken(header: string): (r: Result<string, AuthError>)
    ensures header == "" ==> r == Err(MissingHeader)
    ensures r.Ok? ==> ' ' !in r.value
  {
    if header == "" then Err(MissingHeader)
    else
      var parts := Split(header);
      if |parts| != 2 || parts[0] != "Bearer" then Err(MalformedHeader)
      else Ok(parts[1])
  }

  /**
   * A header is accepted with token t exactly when it is "Bearer " followed
   * by t and t holds no space: the scheme is case-sensitive, a second space
   * makes a third part, and "Bearer " alone yields the empty token.
   */
  lemma BearerTokenIff(header: string, token: string)
    ensures BearerToken(header) == Ok(token) <==> header == "Bearer " + token && ' ' !in token
  {
    if header == "Bearer " + token && ' ' !in token {
      assert header == "Bearer" + " " + Join([token]);
      SplitJoin(["Bearer", token]);
    }
    if BearerToken(header) == Ok(token) {
      var parts := Split(header);
      JoinSplit(header);
      assert Join(parts) == parts[0] + " " + Join(parts[1..]);
      assert header == "Bearer" + " " + token;
    }
  }

  /** The accepted form: "Bearer ", then a token without spaces. */
  predicate WellFormedHeader(header: string)
  {
    |header| >= 7 && header[..7] == "Bearer " && ' ' !in header[7..]
  }

  /** BearerToken accepts exactly the well-formed headers, and returns what follows "Bearer ". */
  lemma BearerTokenShape(header: string)
    ensures BearerToken(header).Ok? <==> WellFormedHeader(header)
    ensures BearerToken(header).Ok? ==> BearerToken(header).value == header[7..]
  {
    if WellFormedHeader(header) {
      assert header == "Bearer " + header[7..];
      BearerTokenIff(header, header[7..]);
    }
    if BearerToken(header).Ok? {
      var t := BearerToken(header).value;
      BearerTokenIff(header, t);
      assert header[..7] == "Bearer " && header[7..] == t;
    }
  }

  /**
   * AuthMiddleware up to c.Set("user_id"): an empty header is missing, any
   * other header not of the form "Bearer {token}" is malformed, and a
   * well-formed one yields the id its token verifies to, or InvalidToken.
   */
  function Authenticate(header: string, verify: string -> Option<int>): (r: Result<int, AuthError>)
    ensures header == "" ==> r == Err(MissingHeader)
    ensures header != "" && !WellFormedHeader(header) ==> r == Err(MalformedHeader)
    ensures r.Ok? <==> WellFormedHeader(header) && verify(header[7..]).Some?
    ensures r.Ok? ==> r.value == verify(header[7..]).value
    ensures WellFormedHeader(header) && verify(header[7..]).None? ==> r == Err(InvalidToken)
  {
    BearerTokenShape(header);
    match BearerToken(header)
    case Err(e) => Err(e)
    case Ok(t) => if verify(t).None? then Err(InvalidToken) else Ok(verify(t).value)
  }

  lemma LowercaseSchemeRefused(token: string)
    ensures BearerToken("bearer " + token).Err?
  {
    var h := "bearer " + token;
    if BearerToken(h).Ok? {
      var t := BearerToken(h).value;
      BearerTokenIff(h, t);
    }
  }

  lemma DoubleSpaceRefused(token: string)
    ensures BearerToken("Bearer  " + token) == Err(MalformedHeader)
  {
    var h := "Bearer  " + token;
    assert h == "Bearer" + " " + (" " + token);
    SplitPrefix("Bearer", " " + token);
    SplitPrefix("", token);
    assert "" + " " + token == " " + token;
  }
}
