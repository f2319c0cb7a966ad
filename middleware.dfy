/**
 * The bearer-token gate `JWTAuth` of package `transport`: a decision on the
 * `Authorization` header values of a request. Token validation is a
 * parameter, since its implementation lives in package `authentication`.
 */
module Middleware {
  import opened Common

  /** Go's `strings.Split(s, sep)` for a one-character separator. */
  function Split(s: string, sep: char): (parts: seq<string>)
    ensures |parts| == Occurrences(s, sep) + 1
    ensures forall i :: 0 <= i < |parts| ==> sep !in parts[i]
    ensures Join(parts, sep) == s
    decreases |s|
  {
    if s == [] then [""]
    else
      var rest := Split(s[1..], sep);
      if s[0] == sep then
        assert ([""] + rest)[1..] == rest;
        [""] + rest
      else
        var parts := [[s[0]] + rest[0]] + rest[1..];
        assert parts[1..] == rest[1..];
        assert s == [s[0]] + s[1..];
        parts
  }

  /** Go's `strings.Join`, the partner of `Split`. */
  function Join(parts: seq<string>, sep: char): string
    requires |parts| >= 1
  {
    if |parts| == 1 then parts[0] else parts[0] + [sep] + Join(parts[1..], sep)
  }

  function Occurrences(s: string, c: char): nat
  {
    if s == [] then 0 else (if s[0] == c then 1 else 0) + Occurrences(s[1..], c)
  }

  /** A piece without separator splits into itself. */
  lemma {:induction false} SplitNoSep(a: string, sep: char)
    requires sep !in a
    ensures Split(a, sep) == [a]
    decreases |a|
  {
    if a != [] {
      SplitNoSep(a[1..], sep);
      assert [a[0]] + a[1..] == a;
    }
  }

  /** Splitting at the first separator peels off the piece before it. */
  lemma {:induction false} SplitAppend(a: string, b: string, sep: char)
    requires sep !in a
    ensures Split(a + [sep] + b, sep) == [a] + Split(b, sep)
    decreases |a|
  {
    var s := a + [sep] + b;
    if a == [] {
      assert s[1..] == b;
    } else {
      assert s[1..] == a[1..] + [sep] + b;
      SplitAppend(a[1..], b, sep);
      assert [a[0]] + a[1..] == a;
    }
  }

  /**
   * `Split` is the only way to cut `s` into separator-free pieces that
   * `Join` puts back together.
   */
  lemma {:induction false} SplitUnique(parts: seq<string>, sep: char)
    requires |parts| >= 1
    requires forall i :: 0 <= i < |parts| ==> sep !in parts[i]
    ensures Split(Join(parts, sep), sep) == parts
    decreases |parts|
  {
    if |parts| == 1 {
      SplitNoSep(parts[0], sep);
    } else {
      SplitUnique(parts[1..], sep);
      SplitAppend(parts[0], Join(parts[1..], sep), sep);
      assert [parts[0]] + parts[1..] == parts;
    }
  }

  /** ASCII lower-casing of one character. */
  function LowerChar(c: char): char
  {
    if 'A' <= c <= 'Z' then (c as int + 32) as char else c
  }

  /** `strings.ToLower`, restricted to ASCII letters. */
  function ToLower(s: string): (r: string)
    ensures |r| == |s|
    ensures forall i :: 0 <= i < |s| ==> r[i] == LowerChar(s[i])
  {
    if s == [] then [] else [LowerChar(s[0])] + ToLower(s[1..])
  }

  /** The scheme check is case-insensitive letter by letter, in both directions. */
  lemma LowerCharIs(c: char, lower: char)
    requires 'a' <= lower <= 'z'
    ensures LowerChar(c) == lower <==> c == lower || c as int == lower as int - 32
  {
  }

  /** The letters "bearer" spells, each in either case. */
  predicate SpellsBearer(p: string)
  {
    && |p| == 6
    && p[0] in {'b', 'B'} && p[1] in {'e', 'E'} && p[2] in {'a', 'A'}
    && p[3] in {'r', 'R'} && p[4] in {'e', 'E'} && p[5] in {'r', 'R'}
  }

  lemma SchemeIsBearerIff(p: string)
    ensures ToLower(p) == "bearer" <==> SpellsBearer(p)
  {
    var l := ToLower(p);
    var b := "bearer";
    if |p| == 6 {
      LowerCharIs(p[0], 'b');
      LowerCharIs(p[1], 'e');
      LowerCharIs(p[2], 'a');
      LowerCharIs(p[3], 'r');
      LowerCharIs(p[4], 'e');
      LowerCharIs(p[5], 'r');
      assert b[0] == 'b' && b[1] == 'e' && b[2] == 'a' && b[3] == 'r' && b[4] == 'e' && b[5] == 'r';
      if SpellsBearer(p) {
        assert forall i | 0 <= i < 6 :: l[i] == b[i];
      }
    }
  }

  /** `authentication.Claims`; only the user id is read. */
  datatype Claims = Claims(userId: string)

  /** Keys of the request context: `contextkey.UserIDKey` and any other key. */
  datatype ContextKey = UserIDKey | OtherKey(name: string)

  type Context = map<ContextKey, string>

  /**
   * What the wrapped handler does with a request: write 401 and stop,
   * call `original` once with the given context, or panic on indexing an
   * empty, non-nil list of header values.
   */
  datatype GateOutcome = Reject401 | Call(ctx: Context) | IndexPanic

  /** The outcome once the token is known: the validator decides alone. */
  function Validated(token: string, ctx: Context, validateJwt: string -> Result<Claims, string>): GateOutcome
  {
    match validateJwt(token)
    case Err(_) => Reject401
    case Ok(claims) => Call(ctx[UserIDKey := claims.userId])
  }

  /**
   * `JWTAuth(original)` applied to a request whose `Authorization` values
   * are `authHeader` (`None` for a nil slice) and whose context is `ctx`;
   * `validateJwt` stands for `authentication.ValidateJWT`.
   */
  function JwtAuth(authHeader: Option<seq<string>>, ctx: Context, validateJwt: string -> Result<Claims, string>)
    : (out: GateOutcome)
    ensures authHeader.None? ==> out == Reject401
    ensures out.IndexPanic? <==> authHeader == Some([])
    ensures authHeader.Some? && |authHeader.value| > 0 && |Split(authHeader.value[0], ' ')| != 2 ==> out == Reject401
    ensures out.Call? ==>
      && UserIDKey in out.ctx
      && (forall k :: k != UserIDKey ==> (k in out.ctx <==> k in ctx))
      && (forall k :: k != UserIDKey && k in ctx ==> out.ctx[k] == ctx[k])
  {
    if authHeader.None? then Reject401
    else if |authHeader.value| == 0 then IndexPanic
    else
      var authHeaderParts := Split(authHeader.value[0], ' ');
      if |authHeaderParts| != 2 || ToLower(authHeaderParts[0]) != "bearer" then Reject401
      else
        Validated(authHeaderParts[1], ctx, validateJwt)
  }

  /** A header of the form `<scheme> <token>`, one space, scheme spelling "bearer" in any case. */
  predicate BearerForm(header: string, scheme: string, token: string)
  {
    && header == scheme + " " + token
    && ' ' !in scheme && ' ' !in token
    && ToLower(scheme) == "bearer"
  }

  /**
   * A bearer-form first header hands exactly its token to the validator:
   * an error rejects with 401, claims call `original` with the user id
   * bound under `UserIDKey`. Later header values play no part.
   */
  lemma {:induction false} BearerFormReachesValidator(
    header: string, scheme: string, token: string, rest: seq<string>,
    ctx: Context, validateJwt: string -> Result<Claims, string>)
    requires BearerForm(header, scheme, token)
    ensures JwtAuth(Some([header] + rest), ctx, validateJwt) == Validated(token, ctx, validateJwt)
  {
    SplitAppend(scheme, token, ' ');
    SplitNoSep(token, ' ');
    assert Split(header, ' ') == [scheme, token];
  }

  /**
   * Conversely, `original` is called only for a bearer-form first header
   * whose token validates, and with the claims' user id in the context.
   */
  lemma {:induction false} CallOnlyForBearerForm(
    authHeader: Option<seq<string>>, ctx: Context, validateJwt: string -> Result<Claims, string>)
    requires JwtAuth(authHeader, ctx, validateJwt).Call?
    ensures authHeader.Some? && |authHeader.value| > 0
    ensures var parts := Split(authHeader.value[0], ' ');
      && |parts| == 2
      && BearerForm(authHeader.value[0], parts[0], parts[1])
      && validateJwt(parts[1]).Ok?
      && JwtAuth(authHeader, ctx, validateJwt) == Call(ctx[UserIDKey := validateJwt(parts[1]).value.userId])
  {
    var parts := Split(authHeader.value[0], ' ');
    assert Join(parts, ' ') == parts[0] + [' '] + Join(parts[1..], ' ');
    assert parts[1..] == [parts[1]];
    assert 0 <= 1 < |parts|;
  }

  /** Only the first header value is examined. */
  lemma OnlyFirstValueRead(
    header: string, rest: seq<string>, ctx: Context, validateJwt: string -> Result<Claims, string>)
    ensures JwtAuth(Some([header] + rest), ctx, validateJwt) == JwtAuth(Some([header]), ctx, validateJwt)
  {
  }

  /** A header without a space ("Bearer" alone) is one part and is rejected without validation. */
  lemma {:induction false} SinglePartRejected(
    header: string, ctx: Context, validateJwt: string -> Result<Claims, string>)
    requires ' ' !in header
    ensures JwtAuth(Some([header]), ctx, validateJwt) == Reject401
  {
    SplitNoSep(header, ' ');
  }

  /**
   * A header with two spaces is three parts and is rejected without
   * validation: "Bearer a b", and "Bearer  tok" whose middle part is empty.
   */
  lemma {:induction false} ThreePartsRejected(
    scheme: string, middle: string, last: string, ctx: Context, validateJwt: string -> Result<Claims, string>)
    requires ' ' !in scheme && ' ' !in middle && ' ' !in last
    ensures JwtAuth(Some([scheme + " " + middle + " " + last]), ctx, validateJwt) == Reject401
  {
    SplitNoSep(last, ' ');
    SplitAppend(middle, last, ' ');
    SplitAppend(scheme, middle + [' '] + last, ' ');
    assert scheme + " " + middle + " " + last == scheme + [' '] + (middle + [' '] + last);
  }

  /** Any capitalisation of the scheme passes, and "Bearer " hands the empty token over. */
  lemma {:induction false} SchemeCaseAndEmptyToken(
    token: string, ctx: Context, validateJwt: string -> Result<Claims, string>)
    requires ' ' !in token
    ensures JwtAuth(Some(["bearer " + token]), ctx, validateJwt) == Validated(token, ctx, validateJwt)
    ensures JwtAuth(Some(["BEARER " + token]), ctx, validateJwt) == Validated(token, ctx, validateJwt)
    ensures JwtAuth(Some(["BeArEr " + token]), ctx, validateJwt) == Validated(token, ctx, validateJwt)
    ensures JwtAuth(Some(["Bearer "]), ctx, validateJwt) == Validated("", ctx, validateJwt)
  {
    SchemeIsBearerIff("bearer");
    SchemeIsBearerIff("BEARER");
    SchemeIsBearerIff("BeArEr");
    SchemeIsBearerIff("Bearer");
    assert [("bearer " + token)] + [] == ["bearer " + token];
    BearerFormReachesValidator("bearer " + token, "bearer", token, [], ctx, validateJwt);
    BearerFormReachesValidator("BEARER " + token, "BEARER", token, [], ctx, validateJwt);
    BearerFormReachesValidator("BeArEr " + token, "BeArEr", token, [], ctx, validateJwt);
    BearerFormReachesValidator("Bearer ", "Bearer", "", [], ctx, validateJwt);
  }
}
