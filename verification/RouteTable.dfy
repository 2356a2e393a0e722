/** The nine path templates of the service as a flat table, matched segment by segment: what the generated router is
    meant to compute. */
module RouteTable {
  import opened Basics
  import opened Strings

  // ---- the table ----

  datatype Operation =
    | RevokeChain | Verify | CreateInvite | FinishLogin | BeginLogin
    | BeginRegistration | CompleteRegistration | RevokeSession | RefreshToken

  datatype Segment = Literal(text: string) | Parameter(name: string)

  /** `headers` and `acceptPost` are what a request with another method is told. */
  datatype Route = Route(verb: string, headers: string, acceptPost: string, pattern: seq<Segment>)

  function RouteOf(op: Operation): Route {
    match op
    case RevokeChain =>
      Route("POST", "Authorization", "",
            [Literal(""), Literal("admin"), Literal("users"), Parameter("userId"), Literal("revoke-chain")])
    case Verify => Route("GET", "Authorization", "", [Literal(""), Literal("auth"), Literal("verify")])
    case CreateInvite => Route("POST", "Authorization", "", [Literal(""), Literal("invites")])
    case FinishLogin => Route("POST", "Content-Type", "application/json", [Literal(""), Literal("login")])
    case BeginLogin => Route("POST", "", "", [Literal(""), Literal("login"), Literal("begin")])
    case BeginRegistration =>
      Route("POST", "Content-Type", "application/json", [Literal(""), Literal("registration"), Literal("begin")])
    case CompleteRegistration =>
      Route("POST", "Content-Type", "application/json", [Literal(""), Literal("registration"), Literal("complete")])
    case RevokeSession =>
      Route("DELETE", "Authorization", "", [Literal(""), Literal("sessions"), Parameter("sessionId")])
    case RefreshToken =>
      Route("POST", "Content-Type", "application/json", [Literal(""), Literal("token"), Literal("refresh")])
  }

  function Pattern(op: Operation): seq<Segment> { RouteOf(op).pattern }

  const OPERATIONS: seq<Operation> := [
    RevokeChain, Verify, CreateInvite, FinishLogin, BeginLogin, BeginRegistration, CompleteRegistration, RevokeSession,
    RefreshToken]

  /** The slash-separated segments of a path, the empty one before a leading slash included. */
  function Segments(path: string): (segments: seq<string>)
    ensures segments != []
  {
    Split(path, '/')
  }

  // ---- what the router should answer ----

  predicate Fits(pattern: seq<Segment>, segments: seq<string>) {
    |pattern| == |segments| && forall i :: 0 <= i < |pattern| && pattern[i].Literal? ==> pattern[i].text == segments[i]
  }

  /** Where a pattern has its parameter; none has two. */
  function ParameterAt(pattern: seq<Segment>): (r: Option<nat>)
    ensures r.Some? ==> r.value < |pattern| && pattern[r.value].Parameter?
    ensures r.None? ==> forall i :: 0 <= i < |pattern| ==> pattern[i].Literal?
  {
    if pattern == [] then None
    else if pattern[0].Parameter? then Some(0)
    else match ParameterAt(pattern[1..])
      case None =>
        assert forall i :: 0 < i < |pattern| ==> pattern[i] == pattern[1..][i - 1];
        None
      case Some(i) => Some(i + 1)
  }

  /** The segments standing where the pattern has a parameter. */
  function Captured(pattern: seq<Segment>, segments: seq<string>): seq<string>
    requires |pattern| == |segments|
  {
    match ParameterAt(pattern)
    case None => []
    case Some(i) => [segments[i]]
  }

  datatype Answer =
    | NoRoute
    | WrongMethod(allowed: string, headers: string, acceptPost: string)
    | Handled(op: Operation, args: seq<string>)

  function FirstFit(ops: seq<Operation>, segments: seq<string>): (r: Option<Operation>)
    ensures r.Some? ==> r.value in ops && Fits(Pattern(r.value), segments)
    ensures r.None? ==> forall op :: op in ops ==> !Fits(Pattern(op), segments)
  {
    if ops == [] then None
    else if Fits(Pattern(ops[0]), segments) then Some(ops[0])
    else FirstFit(ops[1..], segments)
  }

  /** A linear search of the table. */
  function Dispatch(verb: string, path: string): Answer {
    match FirstFit(OPERATIONS, Segments(path))
    case None => NoRoute
    case Some(op) =>
      var route := RouteOf(op);
      if verb == route.verb then Handled(op, Captured(route.pattern, Segments(path)))
      else WrongMethod(route.verb, route.headers, route.acceptPost)
  }

  /** What tells the templates apart: the number of segments and the first characters of the second and third. */
  predicate Telltale(op: Operation, s: seq<string>) {
    match op
    case RevokeChain => |s| == 5
    case Verify => |s| == 3 && |s[1]| == 4
    case CreateInvite => |s| == 2 && |s[1]| == 7
    case FinishLogin => |s| == 2 && |s[1]| == 5
    case BeginLogin => |s| == 3 && |s[1]| == 5 && s[1][0] == 'l'
    case BeginRegistration => |s| == 3 && |s[1]| == 12 && |s[2]| == 5
    case CompleteRegistration => |s| == 3 && |s[1]| == 12 && |s[2]| == 8
    case RevokeSession => |s| == 3 && |s[1]| == 8
    case RefreshToken => |s| == 3 && |s[1]| == 5 && s[1][0] == 't'
  }

  lemma FitShows(op: Operation, segments: seq<string>)
    requires Fits(Pattern(op), segments)
    ensures Telltale(op, segments)
  {
    var p := Pattern(op);
    assert |p| > 1 && p[1].Literal?;
    assert |p| > 2 && p[2].Literal? ==> p[2].text == segments[2];
  }

  /** The order of the table does not matter: no path fits two templates. */
  lemma AtMostOneFits(segments: seq<string>, op: Operation, other: Operation)
    requires Fits(Pattern(op), segments) && Fits(Pattern(other), segments)
    ensures op == other
  {
    FitShows(op, segments);
    FitShows(other, segments);
  }

  // ---- the templates as texts ----

  function Filled(pattern: seq<Segment>, arg: string): (segments: seq<string>)
    ensures |segments| == |pattern|
  {
    seq(|pattern|, i requires 0 <= i < |pattern| => if pattern[i].Literal? then pattern[i].text else arg)
  }

  predicate HasParameter(op: Operation) { op.RevokeChain? || op.RevokeSession? }

  function Text(op: Operation, arg: string): string {
    match op
    case RevokeChain => "/admin/users/" + arg + "/revoke-chain"
    case Verify => "/auth/verify"
    case CreateInvite => "/invites"
    case FinishLogin => "/login"
    case BeginLogin => "/login/begin"
    case BeginRegistration => "/registration/begin"
    case CompleteRegistration => "/registration/complete"
    case RevokeSession => "/sessions/" + arg
    case RefreshToken => "/token/refresh"
  }

  lemma JoinTwo(a: string, b: string)
    ensures Join([a, b], '/') == a + "/" + b
  {
    assert [a, b][1..] == [b];
  }

  lemma JoinThree(a: string, b: string, c: string)
    ensures Join([a, b, c], '/') == a + "/" + (b + "/" + c)
  {
    assert [a, b, c][1..] == [b, c];
    JoinTwo(b, c);
  }

  lemma JoinFive(a: string, b: string, c: string, d: string, e: string)
    ensures Join([a, b, c, d, e], '/') == a + "/" + (b + "/" + (c + "/" + (d + "/" + e)))
  {
    assert [a, b, c, d, e][1..] == [b, c, d, e];
    assert [b, c, d, e][1..] == [c, d, e];
    JoinThree(c, d, e);
  }

  lemma ChainWords()
    ensures "" + "/" + ("admin" + "/" + ("users" + "/")) == "/admin/users/" && "/" + "revoke-chain" == "/revoke-chain"
  {
  }

  lemma ChainText(arg: string)
    ensures Join(["", "admin", "users", arg, "revoke-chain"], '/') == "/admin/users/" + arg + "/revoke-chain"
  {
    JoinFive("", "admin", "users", arg, "revoke-chain");
    ChainWords();
  }

  lemma FlatTexts(op: Operation, arg: string)
    requires op.CreateInvite? || op.FinishLogin?
    ensures Join(Filled(Pattern(op), arg), '/') == Text(op, arg)
  {
    if op.CreateInvite? {
      assert Filled(Pattern(op), arg) == ["", "invites"];
      JoinTwo("", "invites");
    } else {
      assert Filled(Pattern(op), arg) == ["", "login"];
      JoinTwo("", "login");
    }
  }

  lemma ThreeSegments(pattern: seq<Segment>, arg: string, a: string, b: string)
    requires pattern == [Literal(""), Literal(a), Literal(b)]
    ensures Join(Filled(pattern, arg), '/') == "/" + a + "/" + b
  {
    assert Filled(pattern, arg) == ["", a, b];
    JoinThree("", a, b);
    assert "" + "/" + (a + "/" + b) == "/" + a + "/" + b;
  }

  lemma VerifyText(arg: string)
    ensures Join(Filled(Pattern(Verify), arg), '/') == "/auth/verify"
  {
    ThreeSegments(Pattern(Verify), arg, "auth", "verify");
  }

  lemma BeginLoginText(arg: string)
    ensures Join(Filled(Pattern(BeginLogin), arg), '/') == "/login/begin"
  {
    ThreeSegments(Pattern(BeginLogin), arg, "login", "begin");
  }

  lemma RefreshTokenText(arg: string)
    ensures Join(Filled(Pattern(RefreshToken), arg), '/') == "/token/refresh"
  {
    ThreeSegments(Pattern(RefreshToken), arg, "token", "refresh");
  }

  lemma BeginRegistrationText(arg: string)
    ensures Join(Filled(Pattern(BeginRegistration), arg), '/') == "/registration/begin"
  {
    ThreeSegments(Pattern(BeginRegistration), arg, "registration", "begin");
  }

  lemma CompleteRegistrationText(arg: string)
    ensures Join(Filled(Pattern(CompleteRegistration), arg), '/') == "/registration/complete"
  {
    ThreeSegments(Pattern(CompleteRegistration), arg, "registration", "complete");
  }

  lemma SessionText(arg: string)
    ensures Join(Filled(Pattern(RevokeSession), arg), '/') == Text(RevokeSession, arg)
  {
    assert Filled(Pattern(RevokeSession), arg) == ["", "sessions", arg];
    JoinThree("", "sessions", arg);
    assert "" + "/" + ("sessions" + "/") == "/sessions/";
  }

  /** The pattern of an operation, its parameter filled in, joins to its text. */
  lemma TextIsPattern(op: Operation, arg: string)
    ensures Join(Filled(Pattern(op), arg), '/') == Text(op, arg)
  {
    match op
    case RevokeChain =>
      assert Filled(Pattern(op), arg) == ["", "admin", "users", arg, "revoke-chain"];
      ChainText(arg);
    case RevokeSession => SessionText(arg);
    case CreateInvite => FlatTexts(op, arg);
    case FinishLogin => FlatTexts(op, arg);
    case Verify => VerifyText(arg);
    case BeginLogin => BeginLoginText(arg);
    case BeginRegistration => BeginRegistrationText(arg);
    case CompleteRegistration => CompleteRegistrationText(arg);
    case RefreshToken => RefreshTokenText(arg);
  }

  lemma WordsHaveNoSlash()
    ensures '/' !in "admin" && '/' !in "users" && '/' !in "revoke-chain" && '/' !in "auth" && '/' !in "verify"
    ensures '/' !in "invites" && '/' !in "login" && '/' !in "begin" && '/' !in "registration" && '/' !in "complete"
    ensures '/' !in "sessions" && '/' !in "token" && '/' !in "refresh"
  {
  }

  lemma LiteralsHaveNoSlash(op: Operation, i: nat)
    requires i < |Pattern(op)| && Pattern(op)[i].Literal?
    ensures '/' !in Pattern(op)[i].text
  {
    WordsHaveNoSlash();
  }

  /** The path carries `arg` for an operation (any slash-free string when it takes none). */
  predicate Matches(op: Operation, arg: string, path: string) {
    path == Text(op, arg) && '/' !in arg
  }

  lemma MatchFits(op: Operation, arg: string, path: string)
    requires Matches(op, arg, path)
    ensures Segments(path) == Filled(Pattern(op), arg)
    ensures Fits(Pattern(op), Segments(path))
  {
    var f := Filled(Pattern(op), arg);
    TextIsPattern(op, arg);
    forall s | s in f ensures '/' !in s {
      var i :| 0 <= i < |f| && f[i] == s;
      if Pattern(op)[i].Literal? { LiteralsHaveNoSlash(op, i); }
    }
    SplitJoin(f, '/');
  }

  /** The segment at the parameter, if there is one. */
  function ArgumentIn(op: Operation, segments: seq<string>): string
    requires |segments| == |Pattern(op)|
  {
    match op
    case RevokeChain => segments[3]
    case RevokeSession => segments[2]
    case _ => ""
  }

  lemma FitMatches(op: Operation, path: string)
    requires Fits(Pattern(op), Segments(path))
    ensures Matches(op, ArgumentIn(op, Segments(path)), path)
  {
    var arg := ArgumentIn(op, Segments(path));
    assert Segments(path) == Filled(Pattern(op), arg);
    JoinSplit(path, '/');
    PartsAvoidSeparator(path, '/');
    TextIsPattern(op, arg);
  }

  ghost predicate Unmatched(path: string) { forall op, arg :: !Matches(op, arg, path) }

  lemma MissDispatch(verb: string, path: string)
    requires Unmatched(path)
    ensures Dispatch(verb, path) == NoRoute
  {
    var found := FirstFit(OPERATIONS, Segments(path));
    if found.Some? {
      FitMatches(found.value, path);
    }
  }

  /** What the router answers to a path that carries `arg` for `op`. */
  function Hit(verb: string, op: Operation, arg: string): Answer {
    var route := RouteOf(op);
    if verb == route.verb then Handled(op, if HasParameter(op) then [arg] else [])
    else WrongMethod(route.verb, route.headers, route.acceptPost)
  }

  lemma OnlyFit(segments: seq<string>, op: Operation)
    requires Fits(Pattern(op), segments)
    ensures FirstFit(OPERATIONS, segments) == Some(op)
  {
    var found := FirstFit(OPERATIONS, segments);
    assert op in OPERATIONS;
    AtMostOneFits(segments, found.value, op);
  }

  lemma HitDispatch(verb: string, path: string, op: Operation, arg: string)
    requires Matches(op, arg, path)
    ensures Dispatch(verb, path) == Hit(verb, op, arg)
  {
    MatchFits(op, arg, path);
    OnlyFit(Segments(path), op);
    CapturedArgument(op, arg);
  }

  lemma CapturedArgument(op: Operation, arg: string)
    ensures Captured(Pattern(op), Filled(Pattern(op), arg)) == if HasParameter(op) then [arg] else []
  {
    var p := Pattern(op);
    assert op.RevokeChain? ==> p[3].Parameter? && p[0].Literal? && p[1].Literal? && p[2].Literal? && p[4].Literal?;
    assert op.RevokeSession? ==> p[2].Parameter? && p[0].Literal? && p[1].Literal?;
  }

  /** A path fits a template exactly when it is the template's text with some slash-free string, possibly
      empty, for its parameter. */
  lemma FitsExactlyItsTexts(op: Operation, path: string)
    ensures Fits(Pattern(op), Segments(path)) <==> exists arg :: Matches(op, arg, path)
  {
    if Fits(Pattern(op), Segments(path)) { FitMatches(op, path); }
    if arg :| Matches(op, arg, path) { MatchFits(op, arg, path); }
  }

  /** The captured argument is the only one the path can have been built from. */
  lemma OneArgument(op: Operation, a: string, b: string, path: string)
    requires HasParameter(op) && Matches(op, a, path) && Matches(op, b, path)
    ensures a == b
  {
    MatchFits(op, a, path);
    MatchFits(op, b, path);
    CapturedArgument(op, a);
    CapturedArgument(op, b);
  }

  // ---- the nine routes, spelt out ----

  /** Each operation is reached by its method and path and by no other method. */
  lemma RoutesWithParameter(verb: string, arg: string)
    requires '/' !in arg
    ensures Dispatch(verb, "/admin/users/" + arg + "/revoke-chain") ==
            if verb == "POST" then Handled(RevokeChain, [arg]) else WrongMethod("POST", "Authorization", "")
    ensures Dispatch(verb, "/sessions/" + arg) ==
            if verb == "DELETE" then Handled(RevokeSession, [arg]) else WrongMethod("DELETE", "Authorization", "")
  {
    HitDispatch(verb, "/admin/users/" + arg + "/revoke-chain", RevokeChain, arg);
    HitDispatch(verb, "/sessions/" + arg, RevokeSession, arg);
  }

  lemma FixedRoutes(verb: string, path: string)
    ensures path == "/auth/verify" ==>
              Dispatch(verb, path) ==
              if verb == "GET" then Handled(Verify, []) else WrongMethod("GET", "Authorization", "")
    ensures path == "/invites" ==>
              Dispatch(verb, path) ==
              if verb == "POST" then Handled(CreateInvite, []) else WrongMethod("POST", "Authorization", "")
    ensures path == "/login/begin" ==>
              Dispatch(verb, path) == if verb == "POST" then Handled(BeginLogin, []) else WrongMethod("POST", "", "")
  {
    if path == "/auth/verify" {
      HitDispatch(verb, path, Verify, "");
    } else if path == "/invites" {
      HitDispatch(verb, path, CreateInvite, "");
    } else if path == "/login/begin" {
      HitDispatch(verb, path, BeginLogin, "");
    }
  }

  lemma RoutesWithBody(verb: string, path: string, op: Operation)
    requires (path == "/login" && op == FinishLogin) || (path == "/registration/begin" && op == BeginRegistration)
             || (path == "/registration/complete" && op == CompleteRegistration)
             || (path == "/token/refresh" && op == RefreshToken)
    ensures Dispatch(verb, path) ==
            if verb == "POST" then Handled(op, []) else WrongMethod("POST", "Content-Type", "application/json")
  {
    HitDispatch(verb, path, op, "");
  }
}
