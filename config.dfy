/**
 * The configuration New builds before it opens the transport: the
 * comma-separated endpoint list with an "http://" scheme added where
 * missing, the request timeout with its default, and optional
 * "user:password" credentials.
 */
module Config {
  import opened Wrappers
  import opened Errors
  import opened Store

  const Second: Duration := 1_000_000_000

  /** The timeout used when the caller passes a non-positive one. */
  const DefaultTimeout: Duration := 5 * Second

  /** The per-request header timeout given to the transport. */
  const HeaderTimeoutPerRequest: Duration := 5 * Second

  const Scheme: string := "http://"

  datatype Credentials = Anonymous | Basic(username: string, password: string)

  /** What the transport is created from. */
  datatype ClientConfig = ClientConfig(endpoints: seq<string>, credentials: Credentials, headerTimeoutPerRequest: Duration)

  // ---------------------------------------------------------------------------
  // strings.Split with a one-character separator.
  // ---------------------------------------------------------------------------

  function Count(s: string, c: char): nat {
    if |s| == 0 then 0 else (if s[0] == c then 1 else 0) + Count(s[1..], c)
  }

  /** The pieces of s between occurrences of sep; "" gives [""]. */
  function Split(s: string, sep: char): (r: seq<string>)
    ensures |r| == Count(s, sep) + 1
    ensures forall i :: 0 <= i < |r| ==> sep !in r[i]
  {
    if |s| == 0 then [""]
    else
      var rest := Split(s[1..], sep);
      if s[0] == sep then [""] + rest
      else [[s[0]] + rest[0]] + rest[1..]
  }

  /** The pieces joined back with sep between them. */
  function JoinWith(parts: seq<string>, sep: char): string {
    if |parts| == 0 then ""
    else if |parts| == 1 then parts[0]
    else parts[0] + [sep] + JoinWith(parts[1..], sep)
  }

  /** Splitting loses nothing: joining the pieces gives back the input. */
  lemma {:induction false} SplitJoin(s: string, sep: char)
    ensures JoinWith(Split(s, sep), sep) == s
  {
    if |s| > 0 {
      var rest := Split(s[1..], sep);
      SplitJoin(s[1..], sep);
      if s[0] == sep {
        assert Split(s, sep)[1..] == rest;
      } else {
        var r := Split(s, sep);
        if |rest| == 1 {
          assert r == [[s[0]] + rest[0]];
        } else {
          assert r[1..] == rest[1..];
          assert JoinWith(rest, sep) == rest[0] + [sep] + JoinWith(rest[1..], sep);
        }
      }
    }
  }

  // ---------------------------------------------------------------------------
  // Endpoints.
  // ---------------------------------------------------------------------------

  predicate HasPrefix(s: string, p: string) {
    |p| <= |s| && s[..|p|] == p
  }

  /** An endpoint with the scheme added when it is non-empty and lacks it. */
  function WithScheme(e: string): (r: string)
    ensures e != "" ==> HasPrefix(r, Scheme)
    ensures e == "" || HasPrefix(e, Scheme) ==> r == e
    ensures r == e || r == Scheme + e
  {
    if e != "" && !HasPrefix(e, Scheme) then Scheme + e else e
  }

  /** Normalising twice is normalising once. */
  lemma WithSchemeIdempotent(e: string)
    ensures WithScheme(WithScheme(e)) == WithScheme(e)
  {
  }

  /** The endpoint list New hands to the transport. */
  function Endpoints(addrlist: string): (r: seq<string>)
    ensures |r| == |Split(addrlist, ',')|
    ensures forall i :: 0 <= i < |r| ==> r[i] == WithScheme(Split(addrlist, ',')[i])
  {
    var parts := Split(addrlist, ',');
    seq(|parts|, i requires 0 <= i < |parts| => WithScheme(parts[i]))
  }

  /** Rewrites, in place, each non-empty endpoint lacking the scheme. */
  method NormalizeEndpoints(endPoints: array<string>)
    modifies endPoints
    ensures forall i :: 0 <= i < endPoints.Length ==> endPoints[i] == WithScheme(old(endPoints[i]))
  {
    for i := 0 to endPoints.Length
      invariant forall j :: 0 <= j < i ==> endPoints[j] == WithScheme(old(endPoints[j]))
      invariant forall j :: i <= j < endPoints.Length ==> endPoints[j] == old(endPoints[j])
    {
      var s := endPoints[i];
      if s != "" && !HasPrefix(s, Scheme) {
        endPoints[i] := Scheme + s;
      }
    }
  }

  // ---------------------------------------------------------------------------
  // Timeout.
  // ---------------------------------------------------------------------------

  /** A non-positive timeout is replaced by the default; a positive one is kept. */
  function EffectiveTimeout(timeout: Duration): (t: Duration)
    ensures t > 0
    ensures timeout > 0 ==> t == timeout
    ensures timeout <= 0 ==> t == 5 * Second
  {
    if timeout <= 0 then DefaultTimeout else timeout
  }

  // ---------------------------------------------------------------------------
  // Credentials: strings.SplitN(auth, ":", 2).
  // ---------------------------------------------------------------------------

  /** Index of the first c in s, or -1. */
  function IndexOf(s: string, c: char): (i: int)
    ensures -1 <= i < |s|
    ensures i >= 0 ==> s[i] == c && c !in s[..i]
    ensures i < 0 ==> c !in s
  {
    if |s| == 0 then -1
    else if s[0] == c then 0
    else
      var j := IndexOf(s[1..], c);
      assert s[1..][..if j < 0 then 0 else j] == s[1..if j < 0 then 1 else j + 1];
      if j < 0 then -1 else j + 1
  }

  /** s cut at its first sep into two pieces, or s alone when sep is absent. */
  function SplitFirst(s: string, sep: char): (r: seq<string>)
    ensures sep !in s ==> r == [s]
    ensures sep in s ==> |r| == 2 && sep !in r[0] && s == r[0] + [sep] + r[1]
  {
    var i := IndexOf(s, sep);
    if i < 0 then [s]
    else
      assert s == s[..i] + [sep] + s[i + 1..];
      [s[..i], s[i + 1..]]
  }

  /** Empty auth means no credentials; otherwise "user:password" with a non-empty user. */
  function ParseAuth(auth: string): (r: Result<Credentials, Error>)
    ensures auth == "" ==> r == Ok(Anonymous)
    ensures r.Err? <==> auth != "" && (':' !in auth || auth[0] == ':')
    ensures r.Err? ==> r.error == ErrInvalidAuth
    ensures r.Ok? && r.value.Basic? ==>
              && r.value.username != "" && ':' !in r.value.username
              && auth == r.value.username + ":" + r.value.password
  {
    if auth == "" then Ok(Anonymous)
    else
      var split := SplitFirst(auth, ':');
      if |split| != 2 || split[0] == "" then Err(ErrInvalidAuth)
      else Ok(Basic(split[0], split[1]))
  }

  /** A user without ':' and any password, joined by ':', parse back to themselves. */
  lemma ParseAuthRoundTrip(user: string, password: string)
    requires user != "" && ':' !in user
    ensures ParseAuth(user + ":" + password) == Ok(Basic(user, password))
  {
    var auth := user + ":" + password;
    assert auth[|user|] == ':';
    var split := SplitFirst(auth, ':');
    assert IndexOf(auth, ':') == |user| by {
      assert auth[..|user|] == user;
    }
    assert split[0] == auth[..|user|] == user;
    assert split[1] == auth[|user| + 1..] == password;
  }
}
