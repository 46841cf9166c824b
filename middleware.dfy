/** Bearer credential parsing (backend/utils/middleware.js): the HTTP
    `Authorization` header check of `verifyToken` and the token-source priority
    of `verifySocket`. Token verification (`jwt.verify`) is opaque and passed in
    as `verify`, which yields the decoded claims or nothing. */
module Middleware {
  import opened Common

  /** `s.split(sep)` for a one-character separator: the pieces between separators,
      empty pieces included. */
  function Split(s: string, sep: char): (parts: seq<string>)
    ensures |parts| >= 1
    ensures forall i :: 0 <= i < |parts| ==> sep !in parts[i]
    ensures Join(parts, sep) == s
  {
    if s == [] then [""]
    else
      var rest := Split(s[1..], sep);
      if s[0] == sep then [""] + rest
      else
        assert Join([[s[0]] + rest[0]] + rest[1..], sep) == [s[0]] + Join(rest, sep);
        [[s[0]] + rest[0]] + rest[1..]
  }

  /** `parts.join(sep)`. */
  function Join(parts: seq<string>, sep: char): string
    requires |parts| >= 1
  {
    if |parts| == 1 then parts[0] else parts[0] + [sep] + Join(parts[1..], sep)
  }

  /** Splitting undoes joining pieces that do not contain the separator. */
  lemma {:induction false} SplitJoin(parts: seq<string>, sep: char)
    requires |parts| >= 1
    requires forall i :: 0 <= i < |parts| ==> sep !in parts[i]
    ensures Split(Join(parts, sep), sep) == parts
  {
    if |parts| == 1 {
      SplitNoSeparator(parts[0], sep);
    } else {
      SplitJoin(parts[1..], sep);
      SplitAfterPiece(parts[0], Join(parts[1..], sep), sep);
      assert parts == [parts[0]] + parts[1..];
    }
  }

  lemma {:induction false} SplitNoSeparator(s: string, sep: char)
    requires sep !in s
    ensures Split(s, sep) == [s]
  {
    if s != [] {
      SplitNoSeparator(s[1..], sep);
    }
  }

  /** Splitting `piece + [sep] + rest` yields `piece` followed by the pieces of `rest`. */
  lemma {:induction false} SplitAfterPiece(piece: string, rest: string, sep: char)
    requires sep !in piece
    ensures Split(piece + [sep] + rest, sep) == [piece] + Split(rest, sep)
  {
    var s := piece + [sep] + rest;
    if piece == [] {
      assert s == [sep] + rest && s[1..] == rest;
    } else {
      assert s[0] == piece[0] && s[1..] == piece[1..] + [sep] + rest;
      SplitAfterPiece(piece[1..], rest, sep);
      var tail := Split(s[1..], sep);
      assert tail[0] == piece[1..] && tail[1..] == Split(rest, sep);
      assert [piece[0]] + piece[1..] == piece;
    }
  }

  /** `verifyToken`: the decoded claims that become `req.user`, or the 401 error
      passed to `next`. */
  function VerifyToken(authorization: JsString, verify: string -> Option<Claims>): (r: Result<Claims, HttpError>)
    ensures r.Err? ==> r.error.status == 401
    ensures !Truthy(authorization) ==> r == Err(HttpError(401, "No token provided"))
    ensures r.Ok? ==>
      && Truthy(authorization)
      && var parts := Split(authorization.value, ' ');
      && |parts| == 2 && parts[0] == "Bearer"
      && authorization.value == "Bearer " + parts[1]
      && verify(parts[1]) == Some(r.value)
  {
    if !Truthy(authorization) then Err(HttpError(401, "No token provided"))
    else
      var parts := Split(authorization.value, ' ');
      if |parts| != 2 || parts[0] != "Bearer" then Err(HttpError(401, "Invalid token format"))
      else
        assert Join(parts, ' ') == parts[0] + " " + parts[1];
        match verify(parts[1])
        case None => Err(HttpError(401, "Failed to authenticate token"))
        case Some(claims) => Ok(claims)
  }

  /** A header `Bearer <token>`, with no space inside the token, hands exactly
      that token to verification; its outcome decides the request. */
  lemma BearerHeaderVerifiesToken(token: string, verify: string -> Option<Claims>)
    requires ' ' !in token
    ensures verify(token).Some? ==> VerifyToken(Some("Bearer " + token), verify) == Ok(verify(token).value)
    ensures verify(token).None? ==>
      VerifyToken(Some("Bearer " + token), verify) == Err(HttpError(401, "Failed to authenticate token"))
  {
    SplitJoin(["Bearer", token], ' ');
    assert Join(["Bearer", token], ' ') == "Bearer " + token;
  }

  /** A header with any other scheme, or with more or fewer than two pieces,
      is refused as badly formatted. */
  lemma MalformedHeaderRefused(header: string, verify: string -> Option<Claims>)
    requires header != ""
    requires |Split(header, ' ')| != 2 || Split(header, ' ')[0] != "Bearer"
    ensures VerifyToken(Some(header), verify) == Err(HttpError(401, "Invalid token format"))
  {
  }

  /** `handshake.auth?.token || handshake.query?.token || handshake.headers?.token`:
      the first truthy source, else the last one as it is. */
  function SocketToken(auth: JsString, query: JsString, headers: JsString): (r: JsString)
    ensures Truthy(r) <==> Truthy(auth) || Truthy(query) || Truthy(headers)
    ensures Truthy(auth) ==> r == auth
    ensures !Truthy(auth) && Truthy(query) ==> r == query
    ensures !Truthy(auth) && !Truthy(query) ==> r == headers
  {
    if Truthy(auth) then auth else if Truthy(query) then query else headers
  }

  /** `verifySocket`: the claims that become `socket.user`, or the error that refuses the handshake. */
  function VerifySocket(auth: JsString, query: JsString, headers: JsString, verify: string -> Option<Claims>): (r: Result<Claims, string>)
    ensures !(Truthy(auth) || Truthy(query) || Truthy(headers)) ==> r == Err("No token provided")
    ensures r.Ok? ==> verify(SocketToken(auth, query, headers).value) == Some(r.value)
    ensures Truthy(SocketToken(auth, query, headers)) ==>
      (r.Ok? <==> verify(SocketToken(auth, query, headers).value).Some?)
    ensures Truthy(SocketToken(auth, query, headers)) && r.Err? ==> r == Err("Failed to authenticate token")
  {
    var token := SocketToken(auth, query, headers);
    if !Truthy(token) then Err("No token provided")
    else match verify(token.value)
      case None => Err("Failed to authenticate token")
      case Some(claims) => Ok(claims)
  }
}
