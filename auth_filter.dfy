/** The authentication filter in front of the task endpoints. Requests outside
    "/tasks/" pass untouched; the others must carry an Authorization header whose
    Basic credentials name a stored user and a password that verifies against
    the stored hash. Base64 decoding and BCrypt verification are parameters:
    `decode` yields None where the JDK decoder throws, `verify(raw, hash)` is
    the BCrypt check. */
module AuthGate {
  import opened Common
  import opened AppErrors
  import opened UserMapping

  const TasksPrefix := "/tasks/"
  /** `"Basic".length()`: the number of characters dropped from the header. */
  const SchemeLength := 5
  const MissingTokenMessage := "Token de autenticação não fornecido."
  const InvalidCredentialsMessage := "Usuário ou senha inválidos."

  /** What the filter does with a request: let it through untouched, let it
      through with the `userId` attribute set, or hand an exception to the
      exception resolver without invoking the rest of the chain. */
  datatype Decision = Pass | Authenticated(userId: Option<Uuid>) | Rejected(error: AppError)

  // ---------------------------------------------------------------------------
  // java.lang.String.trim and java.lang.String.split(":")

  /** Drops the leading characters `String.trim` treats as blank (code <= U+0020). */
  function TrimStart(s: string): (r: string)
    ensures |r| <= |s| && r == s[|s| - |r|..]
    ensures forall i :: 0 <= i < |s| - |r| ==> s[i] <= ' '
    ensures r != [] ==> r[0] > ' '
  {
    if s != [] && s[0] <= ' ' then TrimStart(s[1..]) else s
  }

  /** Drops the trailing characters `String.trim` treats as blank. */
  function TrimEnd(s: string): (r: string)
    ensures |r| <= |s| && r == s[..|r|]
    ensures forall i :: |r| <= i < |s| ==> s[i] <= ' '
    ensures r != [] ==> r[|r| - 1] > ' '
  {
    if s != [] && s[|s| - 1] <= ' ' then TrimEnd(s[..|s| - 1]) else s
  }

  /** `r` is the window of `s` that starts at `k`, and everything outside it is blank. */
  ghost predicate BlankOutside(s: string, k: nat, r: string) {
    && k + |r| <= |s| && r == s[k..k + |r|]
    && (forall i :: 0 <= i < k ==> s[i] <= ' ')
    && (forall i :: k + |r| <= i < |s| ==> s[i] <= ' ')
  }

  /** `String.trim`: `s` without its leading and trailing characters <= U+0020. */
  function Trim(s: string): (r: string)
    ensures r == [] || (r[0] > ' ' && r[|r| - 1] > ' ')
    ensures |r| <= |s|
    ensures exists k: nat :: BlankOutside(s, k, r)
  {
    var t := TrimStart(s);
    TrimWindow(s, t, TrimEnd(t));
    TrimEnd(t)
  }

  /** A blank-free prefix window of a blank-free suffix window is a window of `s`. */
  lemma TrimWindow(s: string, t: string, r: string)
    requires |t| <= |s| && t == s[|s| - |t|..] && forall i :: 0 <= i < |s| - |t| ==> s[i] <= ' '
    requires |r| <= |t| && r == t[..|r|] && forall i :: |r| <= i < |t| ==> t[i] <= ' '
    ensures BlankOutside(s, |s| - |t|, r)
  {
    var k := |s| - |t|;
    assert r == s[k..k + |r|];
    forall i | k + |r| <= i < |s| ensures s[i] <= ' ' {
      assert s[i] == t[i - k];
    }
  }

  /** The text between the colons of `s`, every piece kept (k colons give k+1 pieces). */
  function Pieces(s: string): (r: seq<string>)
    ensures |r| >= 1
    ensures forall i :: 0 <= i < |r| ==> ':' !in r[i]
  {
    if s == [] then [""]
    else
      var rest := Pieces(s[1..]);
      if s[0] == ':' then [""] + rest
      else [[s[0]] + rest[0]] + rest[1..]
  }

  /** The inverse of Pieces: the pieces glued back with colons. */
  function Join(pieces: seq<string>): string
    requires |pieces| >= 1
  {
    if |pieces| == 1 then pieces[0] else pieces[0] + ":" + Join(pieces[1..])
  }

  /** Removes the empty strings at the end of a split result. */
  function DropTrailingEmpty(pieces: seq<string>): (r: seq<string>)
    ensures |r| <= |pieces| && r == pieces[..|r|]
    ensures r == [] || r[|r| - 1] != ""
    ensures forall i :: |r| <= i < |pieces| ==> pieces[i] == ""
  {
    if pieces == [] || pieces[|pieces| - 1] != "" then pieces
    else DropTrailingEmpty(pieces[..|pieces| - 1])
  }

  /** `s.split(":")`: the whole string when it has no colon, otherwise the
      pieces with the trailing empty ones removed. */
  function Split(s: string): (r: seq<string>)
    ensures forall i :: 0 <= i < |r| ==> ':' !in r[i]
    ensures ':' !in s ==> r == [s]
    ensures ':' in s ==> |r| <= |Pieces(s)| && r == Pieces(s)[..|r|] && (r == [] || r[|r| - 1] != "")
    ensures ':' in s ==> forall i :: |r| <= i < |Pieces(s)| ==> Pieces(s)[i] == ""
  {
    if ':' !in s then [s] else DropTrailingEmpty(Pieces(s))
  }

  // ---------------------------------------------------------------------------
  // validateAuth and doFilterInternal

  /** The credential extraction: drop five characters, trim, decode, split,
      take pieces 0 and 1. The five characters are not compared to "Basic". */
  function ParseCredentials(auth: string, decode: string -> Option<string>)
    : (r: Result<(string, string), AppError>)
    ensures |auth| < SchemeLength ==> r == Failure(Unexpected(StringIndexOutOfBounds))
    ensures r.Failure? ==> r.error.Unexpected?
    ensures r.Success? <==>
              && |auth| >= SchemeLength
              && decode(Trim(auth[SchemeLength..])).Some?
              && |Split(decode(Trim(auth[SchemeLength..])).value)| >= 2
    ensures r.Success? ==>
              && r.value.0 == Split(decode(Trim(auth[SchemeLength..])).value)[0]
              && r.value.1 == Split(decode(Trim(auth[SchemeLength..])).value)[1]
              && ':' !in r.value.0 && ':' !in r.value.1
  {
    if |auth| < SchemeLength then Failure(Unexpected(StringIndexOutOfBounds))
    else
      match decode(Trim(auth[SchemeLength..]))
      case None => Failure(Unexpected(IllegalArgument))
      case Some(decoded) =>
        var credentials := Split(decoded);
        if |credentials| < 2 then Failure(Unexpected(ArrayIndexOutOfBounds))
        else Success((credentials[0], credentials[1]))
  }

  /** validateAuth: the id of the authenticated user, or the exception thrown. */
  function ValidateAuth(header: Option<string>, users: map<string, User>,
                        decode: string -> Option<string>, verify: (string, string) -> bool)
    : (r: Result<Option<Uuid>, AppError>)
    ensures header.None? ==> r == Failure(UserNotAuthorized(MissingTokenMessage))
    ensures r.Failure? ==> r.error.UserNotAuthorized? || r.error.Unexpected?
    ensures header.Some? && ParseCredentials(header.value, decode).Failure? ==>
              r == Failure(ParseCredentials(header.value, decode).error)
    // an unknown user and a wrong password are indistinguishable to the caller
    ensures header.Some? && ParseCredentials(header.value, decode).Success? ==>
              var (username, password) := ParseCredentials(header.value, decode).value;
              && (username !in users ==> r == Failure(UserNotAuthorized(InvalidCredentialsMessage)))
              && ((username in users && users[username].password.Some? &&
                   !verify(password, users[username].password.value))
                    ==> r == Failure(UserNotAuthorized(InvalidCredentialsMessage)))
    // success only for a stored user whose hash verifies the supplied password
    ensures r.Success? <==>
              && header.Some? && ParseCredentials(header.value, decode).Success?
              && var (username, password) := ParseCredentials(header.value, decode).value;
                 && username in users && users[username].password.Some?
                 && verify(password, users[username].password.value)
    ensures r.Success? ==> r == Success(users[ParseCredentials(header.value, decode).value.0].id)
  {
    if header.None? then Failure(UserNotAuthorized(MissingTokenMessage))
    else
      match ParseCredentials(header.value, decode)
      case Failure(e) => Failure(e)
      case Success((username, password)) =>
        if username !in users then Failure(UserNotAuthorized(InvalidCredentialsMessage))
        else
          var user := users[username];
          if user.password.None? then Failure(Unexpected(NullPointer))
          else if !verify(password, user.password.value) then Failure(UserNotAuthorized(InvalidCredentialsMessage))
          else Success(user.id)
  }

  /** doFilterInternal: the path gate, then validateAuth inside the try block;
      any exception goes to the resolver and the chain is not invoked. */
  function DoFilter(path: string, header: Option<string>, users: map<string, User>,
                    decode: string -> Option<string>, verify: (string, string) -> bool)
    : (r: Decision)
    ensures r.Pass? <==> !(TasksPrefix <= path)
    ensures TasksPrefix <= path && header.None? ==> r == Rejected(UserNotAuthorized(MissingTokenMessage))
    ensures r.Rejected? ==> r.error.UserNotAuthorized? || r.error.Unexpected?
    ensures TasksPrefix <= path ==>
              match ValidateAuth(header, users, decode, verify)
              case Success(id) => r == Authenticated(id)
              case Failure(e) => r == Rejected(e)
  {
    if !(TasksPrefix <= path) then Pass
    else
      match ValidateAuth(header, users, decode, verify)
      case Failure(e) => Rejected(e)
      case Success(id) => Authenticated(id)
  }

  // ---------------------------------------------------------------------------
  // Properties

  /** Splitting at every colon and gluing back with colons gives the string back. */
  lemma {:induction false} JoinPieces(s: string)
    ensures Join(Pieces(s)) == s
  {
    if s != [] {
      JoinPieces(s[1..]);
      var rest := Pieces(s[1..]);
      if s[0] == ':' {
        assert ([""] + rest)[1..] == rest;
      } else {
        var r := [[s[0]] + rest[0]] + rest[1..];
        if |rest| == 1 {
          assert s == [s[0]] + s[1..];
        } else {
          assert r[1..] == rest[1..];
          assert Join(rest) == rest[0] + ":" + Join(rest[1..]);
          assert s == [s[0]] + s[1..];
        }
      }
    }
  }

  /** A colon-free prefix followed by a colon is the first piece. */
  lemma {:induction false} PiecesAfterFirstColon(u: string, w: string)
    requires ':' !in u
    ensures Pieces(u + ":" + w) == [u] + Pieces(w)
  {
    if u == [] {
      assert ([] + ":" + w)[1..] == w;
    } else {
      assert (u + ":" + w)[1..] == u[1..] + ":" + w;
      PiecesAfterFirstColon(u[1..], w);
      assert [u[0]] + u[1..] == u;
    }
  }

  /** A colon-free string is a single piece. */
  lemma {:induction false} PiecesOfColonFree(s: string)
    requires ':' !in s
    ensures Pieces(s) == [s]
  {
    if s != [] {
      PiecesOfColonFree(s[1..]);
      assert [s[0]] + s[1..] == s;
    }
  }

  /** Trimming leaves a string that already has no blank ends unchanged, and
      removes the blank between the five dropped characters and the token. */
  lemma TrimOfTrimmed(s: string)
    requires s == [] || (s[0] > ' ' && s[|s| - 1] > ' ')
    ensures Trim(s) == s
    ensures Trim(" " + s) == s
  {
  }

  /** "user:password" with both parts colon-free and a non-empty password
      splits into exactly those two parts. */
  lemma SplitUserPassword(username: string, password: string)
    requires ':' !in username && ':' !in password && password != ""
    ensures Split(username + ":" + password) == [username, password]
  {
    var s := username + ":" + password;
    PiecesAfterFirstColon(username, password);
    PiecesOfColonFree(password);
    assert s[|username|] == ':';
    assert Pieces(s) == [username, password];
  }

  /** What the filter reads from "Basic " + token when the token decodes to
      user + ":" + password with a colon-free user and a non-empty colon-free
      password: exactly that user and password. */
  lemma BasicHeaderParses(token: string, decode: string -> Option<string>, username: string, password: string)
    requires token == [] || (token[0] > ' ' && token[|token| - 1] > ' ')
    requires decode(token) == Some(username + ":" + password)
    requires ':' !in username && ':' !in password && password != ""
    ensures ParseCredentials("Basic " + token, decode) == Success((username, password))
  {
    var auth := "Basic " + token;
    assert auth[SchemeLength..] == " " + token;
    TrimOfTrimmed(token);
    SplitUserPassword(username, password);
  }

  /** The five dropped characters are never compared with "Basic": any scheme
      of that length is read the same way. */
  lemma SchemeNotChecked(a: string, b: string, rest: string, decode: string -> Option<string>)
    requires |a| == SchemeLength && |b| == SchemeLength
    ensures ParseCredentials(a + rest, decode) == ParseCredentials(b + rest, decode)
  {
  }

  /** Unlike RFC 7617 section 2, where the user-id ends at the first colon and
      the password is everything after it, the filter keeps only the text up to
      the password's own first colon. */
  lemma PasswordTruncatedAtColon(username: string, p1: string, p2: string)
    requires ':' !in username && ':' !in p1 && p1 != ""
    ensures var credentials := Split(username + ":" + p1 + ":" + p2);
            |credentials| >= 2 && credentials[0] == username && credentials[1] == p1
  {
    var s := username + ":" + p1 + ":" + p2;
    assert s == username + ":" + (p1 + ":" + p2);
    PiecesAfterFirstColon(username, p1 + ":" + p2);
    PiecesAfterFirstColon(p1, p2);
    assert s[|username|] == ':';
    var pieces := Pieces(s);
    assert pieces == [username, p1] + Pieces(p2);
    assert pieces[1] == p1;
  }

  /** An empty password ("user:") leaves fewer than two pieces, so reading
      piece 1 throws: the request ends in the unclassified error, not in a 401. */
  lemma EmptyPasswordIsUnexpected(username: string)
    requires ':' !in username
    ensures Split(username + ":") == (if username == "" then [] else [username])
  {
    var s := username + ":";
    assert s == username + ":" + "";
    PiecesAfterFirstColon(username, "");
    assert Pieces(s) == [username, ""];
    assert s[|username|] == ':';
    assert DropTrailingEmpty([username, ""]) == DropTrailingEmpty([username]) by {
      assert [username, ""][..1] == [username];
    }
    if username == "" {
      assert DropTrailingEmpty([username]) == DropTrailingEmpty([]) by {
        assert [username][..0] == [];
      }
    }
  }
}
