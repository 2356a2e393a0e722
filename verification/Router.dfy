/** The generated router: a prefix trie unrolled into nested switches, written out twice. Both copies are proved to
    answer what a linear search of the table answers, for every method, prefix and path. */
module Router {
  import opened Basics
  import opened RouteTable
  import opened Strings

  // ---- where the trie gives up ----

  function Letter(op: Operation): char {
    match op
    case RevokeChain => 'a'
    case Verify => 'a'
    case CreateInvite => 'i'
    case FinishLogin => 'l'
    case BeginLogin => 'l'
    case BeginRegistration => 'r'
    case CompleteRegistration => 'r'
    case RevokeSession => 's'
    case RefreshToken => 't'
  }

  lemma TextStarts(op: Operation, arg: string)
    ensures |Text(op, arg)| >= 2 && Text(op, arg)[0] == '/' && Text(op, arg)[1] == Letter(op)
  {
  }

  predicate StartsWith(s: string, prefix: string) {
    |prefix| <= |s| && s[..|prefix|] == prefix
  }

  lemma StartsWithMore(done: string, elem: string, prefix: string)
    ensures StartsWith(done + elem, done + prefix) <==> StartsWith(elem, prefix)
  {
    if StartsWith(elem, prefix) {
      assert (done + elem)[..|done| + |prefix|] == done + elem[..|prefix|];
    }
    if StartsWith(done + elem, done + prefix) {
      assert (done + prefix)[|done|..] == prefix;
      assert (done + elem)[|done|..] == elem;
      assert (done + elem)[..|done + prefix|][|done|..] == elem[..|prefix|];
    }
  }

  lemma MissChain(path: string)
    requires !StartsWith(path, "/admin/users/")
    ensures forall arg :: !Matches(RevokeChain, arg, path)
  {
    forall arg ensures !Matches(RevokeChain, arg, path) {
      assert StartsWith(Text(RevokeChain, arg), "/admin/users/") by {
        assert Text(RevokeChain, arg)[..|"/admin/users/"|] == "/admin/users/";
      }
    }
  }

  lemma SameCut(a: string, x: string, b: string, y: string)
    requires a + x == b + y && '/' !in a && '/' !in b
    requires x != "" && x[0] == '/' && (y == "" || y[0] == '/')
    ensures x == y
  {
    assert (a + x)[..|a|] == a && (a + x)[|a|..] == x && (b + y)[..|b|] == b && (b + y)[|b|..] == y;
    FirstIndex(a + x, '/', |a|);
    assert (a + x)[|a|] == '/';
    if y != "" {
      FirstIndex(b + y, '/', |b|);
    }
  }

  lemma MissChainTail(path: string, arg: string, rest: string)
    requires path == "/admin/users/" + arg + rest && '/' !in arg
    requires (rest == "" || rest[0] == '/') && rest != "/revoke-chain"
    ensures forall a :: !Matches(RevokeChain, a, path)
  {
    var stem := "/admin/users/";
    forall a ensures !Matches(RevokeChain, a, path) {
      if Matches(RevokeChain, a, path) {
        assert (stem + a + "/revoke-chain")[|stem|..] == a + "/revoke-chain";
        assert (stem + arg + rest)[|stem|..] == arg + rest;
        SameCut(a, "/revoke-chain", arg, rest);
      }
    }
  }

  lemma MissSession(path: string)
    requires StartsWith(path, "/sessions/") ==> '/' in path[|"/sessions/"|..]
    ensures forall arg :: !Matches(RevokeSession, arg, path)
  {
    var stem := "/sessions/";
    forall arg ensures !Matches(RevokeSession, arg, path) {
      assert (stem + arg)[..|stem|] == stem && (stem + arg)[|stem|..] == arg;
    }
  }

  lemma MissByLetter(path: string)
    requires |path| >= 2 && path[0] == '/' ==> forall op, arg | Letter(op) == path[1] :: !Matches(op, arg, path)
    ensures Unmatched(path)
  {
    forall op, arg ensures !Matches(op, arg, path) { TextStarts(op, arg); }
  }

  lemma MissNoLetter(path: string)
    requires path == "" || path[0] != '/' || |path| == 1 || path[1] !in {'a', 'i', 'l', 'r', 's', 't'}
    ensures Unmatched(path)
  {
    MissByLetter(path);
  }

  predicate Under(path: string, letter: char) { |path| >= 2 && path[0] == '/' && path[1] == letter }

  lemma MissA(path: string)
    requires Under(path, 'a') && path != "/auth/verify" && forall arg :: !Matches(RevokeChain, arg, path)
    ensures Unmatched(path)
  {
    MissByLetter(path);
  }

  lemma MissI(path: string)
    requires Under(path, 'i') && path != "/invites"
    ensures Unmatched(path)
  {
    MissByLetter(path);
  }

  lemma MissL(path: string)
    requires Under(path, 'l') && path != "/login" && path != "/login/begin"
    ensures Unmatched(path)
  {
    MissByLetter(path);
  }

  lemma MissR(path: string)
    requires Under(path, 'r') && path != "/registration/begin" && path != "/registration/complete"
    ensures Unmatched(path)
  {
    MissByLetter(path);
  }

  lemma MissS(path: string)
    requires Under(path, 's') && (StartsWith(path, "/sessions/") ==> '/' in path[|"/sessions/"|..])
    ensures Unmatched(path)
  {
    MissSession(path);
    MissByLetter(path);
  }

  lemma MissT(path: string)
    requires Under(path, 't') && path != "/token/refresh"
    ensures Unmatched(path)
  {
    MissByLetter(path);
  }

  /** Consuming a literal leaves nothing exactly when the literal was all there was. */
  lemma Consumed(elem: string, literal: string)
    requires StartsWith(elem, literal)
    ensures elem == literal + elem[|literal|..]
    ensures elem[|literal|..] == "" <==> elem == literal
  {
  }

  lemma Tails(done: string, a: string, b: string)
    requires a != b
    ensures done + a != done + b
  {
    assert (done + a)[|done|..] == a && (done + b)[|done|..] == b;
  }

  // The exits of the trie, node by node: `elem` is what is left of the path there.

  lemma ExitA(verb: string, elem: string)
    requires elem == "" || elem[0] !in {'d', 'u'} || (elem[0] == 'u' && elem != "uth/verify")
             || (elem[0] == 'd' && !StartsWith(elem, "dmin/users/"))
    ensures Dispatch(verb, "/a" + elem) == NoRoute
  {
    StartsWithMore("/a", elem, "dmin/users/");
    assert "/a" + "dmin/users/" == "/admin/users/" && "/a" + "uth/verify" == "/auth/verify";
    Tails("/a", elem, "uth/verify");
    MissChain("/a" + elem);
    MissA("/a" + elem);
    MissDispatch(verb, "/a" + elem);
  }

  lemma ExitUsers(verb: string, arg: string, rest: string)
    requires '/' !in arg && (rest == "" || rest[0] == '/') && rest != "/revoke-chain"
    ensures Dispatch(verb, "/a" + ("dmin/users/" + (arg + rest))) == NoRoute
  {
    var path := "/a" + ("dmin/users/" + (arg + rest));
    assert "/a" + "dmin/users/" == "/admin/users/";
    assert path == "/admin/users/" + arg + rest;
    MissChainTail(path, arg, rest);
    assert path != "/auth/verify" by { assert path[2] == 'd'; }
    MissA(path);
    MissDispatch(verb, path);
  }

  lemma LeafChain(arg: string)
    requires '/' !in arg
    ensures Matches(RevokeChain, arg, "/a" + ("dmin/users/" + (arg + "/revoke-chain")))
  {
    var path := "/a" + ("dmin/users/" + (arg + "/revoke-chain"));
    assert "/a" + "dmin/users/" == "/admin/users/";
    assert path == "/admin/users/" + arg + "/revoke-chain";
  }

  lemma ExitI(verb: string, elem: string)
    requires elem != "" && elem[0] == 'i' && elem != "invites"
    ensures Dispatch(verb, "/" + elem) == NoRoute
  {
    assert "/" + "invites" == "/invites";
    Tails("/", elem, "invites");
    MissI("/" + elem);
    MissDispatch(verb, "/" + elem);
  }

  lemma ExitL(verb: string, elem: string)
    requires elem != "" && elem[0] == 'l' && elem != "login" && elem != "login/begin"
    ensures Dispatch(verb, "/" + elem) == NoRoute
  {
    assert "/" + "login" == "/login" && "/" + "login/begin" == "/login/begin";
    Tails("/", elem, "login");
    Tails("/", elem, "login/begin");
    MissL("/" + elem);
    MissDispatch(verb, "/" + elem);
  }

  lemma ExitR(verb: string, elem: string)
    requires elem != "" && elem[0] == 'r' && elem != "registration/begin" && elem != "registration/complete"
    ensures Dispatch(verb, "/" + elem) == NoRoute
  {
    assert "/" + "registration/begin" == "/registration/begin"
      && "/" + "registration/complete" == "/registration/complete";
    Tails("/", elem, "registration/begin");
    Tails("/", elem, "registration/complete");
    MissR("/" + elem);
    MissDispatch(verb, "/" + elem);
  }

  lemma ExitRegistration(verb: string, rest: string)
    requires rest != "begin" && rest != "complete"
    ensures Dispatch(verb, "/" + ("registration/" + rest)) == NoRoute
  {
    assert "registration/" + "begin" == "registration/begin" && "registration/" + "complete" == "registration/complete";
    Tails("registration/", rest, "begin");
    Tails("registration/", rest, "complete");
    ExitR(verb, "registration/" + rest);
  }

  lemma NotRegistration(verb: string, elem: string)
    requires elem != "" && elem[0] == 'r' && !StartsWith(elem, "registration/")
    ensures Dispatch(verb, "/" + elem) == NoRoute
  {
    assert "registration/begin"[..|"registration/"|] == "registration/" == "registration/complete"[..|"registration/"|];
    ExitR(verb, elem);
  }

  lemma LeafRegistration(op: Operation)
    requires op.BeginRegistration? || op.CompleteRegistration?
    ensures Matches(op, "", "/" + ("registration/" + if op.BeginRegistration? then "begin" else "complete"))
  {
    assert "/" + ("registration/" + "begin") == "/registration/begin";
    assert "/" + ("registration/" + "complete") == "/registration/complete";
  }

  lemma ExitS(verb: string, elem: string)
    requires elem != "" && elem[0] == 's' && (StartsWith(elem, "sessions/") ==> '/' in elem[|"sessions/"|..])
    ensures Dispatch(verb, "/" + elem) == NoRoute
  {
    StartsWithMore("/", elem, "sessions/");
    assert "/" + "sessions/" == "/sessions/";
    if StartsWith(elem, "sessions/") { assert ("/" + elem)[|"/sessions/"|..] == elem[|"sessions/"|..]; }
    MissS("/" + elem);
    MissDispatch(verb, "/" + elem);
  }

  lemma LeafSession(arg: string)
    requires '/' !in arg
    ensures Matches(RevokeSession, arg, "/" + ("sessions/" + arg))
  {
    assert "/" + "sessions/" == "/sessions/";
    assert "/" + ("sessions/" + arg) == "/sessions/" + arg;
  }

  lemma ExitT(verb: string, elem: string)
    requires elem != "" && elem[0] == 't' && elem != "token/refresh"
    ensures Dispatch(verb, "/" + elem) == NoRoute
  {
    assert "/" + "token/refresh" == "/token/refresh";
    Tails("/", elem, "token/refresh");
    MissT("/" + elem);
    MissDispatch(verb, "/" + elem);
  }

  lemma NoLetter(verb: string, path: string)
    requires path == "" || path[0] != '/' || |path| == 1 || path[1] !in {'a', 'i', 'l', 'r', 's', 't'}
    ensures Dispatch(verb, path) == NoRoute
  {
    MissNoLetter(path);
    MissDispatch(verb, path);
  }

  lemma NotLogin(verb: string, elem: string)
    requires elem != "" && elem[0] == 'l' && !StartsWith(elem, "login")
    ensures Dispatch(verb, "/" + elem) == NoRoute
  {
    assert "login/begin"[..|"login"|] == "login";
    ExitL(verb, elem);
  }

  lemma ExitLogin(verb: string, rest: string)
    requires rest != "" && rest != "/begin"
    ensures Dispatch(verb, "/" + ("login" + rest)) == NoRoute
  {
    assert "login" + "/begin" == "login/begin";
    Tails("login", rest, "/begin");
    ExitL(verb, "login" + rest);
  }

  lemma LeafBegin()
    ensures Matches(BeginLogin, "", "/" + ("login" + "/begin"))
  {
    assert "/" + ("login" + "/begin") == "/login/begin";
  }

  // ---- the two copies of the trie ----

  /** An operation found for a request: `args` is the fixed array of captured segments, `count` how many are in use. */
  datatype Found = Found(op: Operation, pathPattern: string, args: seq<string>, count: nat)

  /** What `FindPath` may report where the table answers `answer`. */
  predicate FoundAs(found: Option<Found>, answer: Answer) {
    match found
    case None => !answer.Handled?
    case Some(f) =>
      f.count <= |f.args| && answer == Handled(f.op, f.args[..f.count]) && f.pathPattern == PatternText(f.op)
  }

  /** The template as documentation writes it. */
  function PatternText(op: Operation): string {
    match op
    case RevokeChain => "/admin/users/{userId}/revoke-chain"
    case Verify => "/auth/verify"
    case CreateInvite => "/invites"
    case FinishLogin => "/login"
    case BeginLogin => "/login/begin"
    case BeginRegistration => "/registration/begin"
    case CompleteRegistration => "/registration/complete"
    case RevokeSession => "/sessions/{sessionId}"
    case RefreshToken => "/token/refresh"
  }

  /** It is the template with the parameter's name in braces in its place. */
  lemma PatternTextNamesParameter(op: Operation)
    ensures PatternText(op) == Text(op, if op.RevokeChain? then "{userId}" else "{sessionId}")
  {
    if op.RevokeChain? {
      assert "/admin/users/{userId}/revoke-chain" == "/admin/users/" + "{userId}" + "/revoke-chain";
    }
    if op.RevokeSession? { assert "/sessions/{sessionId}" == "/sessions/" + "{sessionId}"; }
  }

  lemma LeafReported(op: Operation, verb: string, args: seq<string>, path: string)
    requires |args| == 1 && Matches(op, args[0], path)
    ensures FoundAs(if verb != RouteOf(op).verb then None
                    else Some(Found(op, PatternText(op), args, if HasParameter(op) then 1 else 0)),
                    Dispatch(verb, path))
  {
    HitDispatch(verb, path, op, args[0]);
  }

  class Server {
    const prefix: string

    constructor (prefix: string)
      ensures this.prefix == prefix
    {
      this.prefix := prefix;
    }

    method CutPrefix(path: string) returns (rest: string, ok: bool)
      ensures ok <==> |prefix| <= |path| && path[..|prefix|] == prefix
      ensures if ok then path == prefix + rest else rest == ""
    {
      if prefix == "" {
        return path, true;
      }
      if !StartsWith(path, prefix) {
        return "", false;
      }
      return path[|prefix|..], true;
    }

    /** What a linear search of the table answers. */
    function Answered(verb: string, url: string): Answer {
      if StartsWith(url, prefix) then Dispatch(verb, url[|prefix|..]) else NoRoute
    }

    /** Under the prefix the table decides on the rest of the path; elsewhere nothing is found. */
    lemma AnsweredUnderPrefix(verb: string, path: string)
      ensures Answered(verb, prefix + path) == Dispatch(verb, path)
      ensures forall url :: !(prefix <= url) ==> Answered(verb, url) == NoRoute
    {
      assert (prefix + path)[..|prefix|] == prefix && (prefix + path)[|prefix|..] == path;
    }

    // The switch on the first letter after "/" and, below, one method for each of its branches.
    method ServeHTTP(verb: string, url: string) returns (answer: Answer)
      ensures answer == Answered(verb, url)
    {
      var elem, ok := CutPrefix(url);
      assert ok ==> url[|prefix|..] == elem;
      if !ok || |elem| == 0 {
        if ok { NoLetter(verb, elem); }
        return NoRoute;
      }
      if elem[0] == '/' && |elem| > 1 {
        ghost var path := elem;
        elem := elem[|"/"|..];
        assert path == "/" + elem;
        match elem[0]
        case 'a' => answer := ServeAdmin(verb, elem); return;
        case 'i' => answer := ServeInvites(verb, elem); return;
        case 'l' => answer := ServeLogin(verb, elem); return;
        case 'r' => answer := ServeRegistration(verb, elem); return;
        case 's' => answer := ServeSessions(verb, elem); return;
        case 't' => answer := ServeToken(verb, elem); return;
        case _ => NoLetter(verb, path); return NoRoute;
      }
      NoLetter(verb, elem);
      return NoRoute;
    }

    /** The nine leaf switches on the request method. */
    method Reply(op: Operation, verb: string, arg: string, ghost path: string) returns (answer: Answer)
      requires Matches(op, arg, path)
      ensures answer == Dispatch(verb, path)
    {
      HitDispatch(verb, path, op, arg);
      match op
      case RevokeChain =>
        answer := if verb == "POST" then Handled(op, [arg]) else WrongMethod("POST", "Authorization", "");
      case Verify => answer := if verb == "GET" then Handled(op, []) else WrongMethod("GET", "Authorization", "");
      case CreateInvite =>
        answer := if verb == "POST" then Handled(op, []) else WrongMethod("POST", "Authorization", "");
      case FinishLogin =>
        answer := if verb == "POST" then Handled(op, []) else WrongMethod("POST", "Content-Type", "application/json");
      case BeginLogin => answer := if verb == "POST" then Handled(op, []) else WrongMethod("POST", "", "");
      case BeginRegistration =>
        answer := if verb == "POST" then Handled(op, []) else WrongMethod("POST", "Content-Type", "application/json");
      case CompleteRegistration =>
        answer := if verb == "POST" then Handled(op, []) else WrongMethod("POST", "Content-Type", "application/json");
      case RevokeSession =>
        answer := if verb == "DELETE" then Handled(op, [arg]) else WrongMethod("DELETE", "Authorization", "");
      case RefreshToken =>
        answer := if verb == "POST" then Handled(op, []) else WrongMethod("POST", "Content-Type", "application/json");
    }

    /** Below the parameter: `args` has it, `rest` starts at the next slash. */
    method ServeUserAction(verb: string, args: seq<string>, rest: string) returns (answer: Answer)
      requires |args| == 1 && '/' !in args[0] && (rest == "" || rest[0] == '/')
      ensures answer == Dispatch(verb, "/a" + ("dmin/users/" + (args[0] + rest)))
    {
      var elem := rest;
      if |elem| > 0 && elem[0] == '/' {
        if StartsWith(elem, "/revoke-chain") {
          elem := elem[|"/revoke-chain"|..];
        } else {
          ExitUsers(verb, args[0], rest);
          return NoRoute;
        }
        Consumed(rest, "/revoke-chain");
        if |elem| == 0 {
          LeafChain(args[0]);
          answer := Reply(RevokeChain, verb, args[0], "/a" + ("dmin/users/" + (args[0] + rest)));
          return;
        }
      }
      ExitUsers(verb, args[0], rest);
      return NoRoute;
    }

    method ServeUsers(verb: string, path: string) returns (answer: Answer)
      requires path != "" && path[0] == 'd'
      ensures answer == Dispatch(verb, "/a" + path)
    {
      var elem := path;
      var args := [""];
      if StartsWith(elem, "dmin/users/") {
        elem := elem[|"dmin/users/"|..];
      } else {
        ExitA(verb, path);
        return NoRoute;
      }
      Consumed(path, "dmin/users/");
      var idx := IndexByte(elem, '/');
      if idx < 0 {
        idx := |elem|;
      }
      args := args[0 := elem[..idx]];
      assert elem == args[0] + elem[idx..];
      answer := ServeUserAction(verb, args, elem[idx..]);
    }

    method ServeAdmin(verb: string, path: string) returns (answer: Answer)
      requires path != "" && path[0] == 'a'
      ensures answer == Dispatch(verb, "/" + path)
    {
      var elem := path;
      assert path[..1] == "a";
      elem := elem[|"a"|..];
      ghost var node := elem;
      assert "/" + path == "/a" + node;
      if |elem| > 0 && elem[0] == 'd' {
        answer := ServeUsers(verb, elem);
        return;
      } else if |elem| > 0 && elem[0] == 'u' {
        if StartsWith(elem, "uth/verify") {
          elem := elem[|"uth/verify"|..];
        } else {
          ExitA(verb, node);
          return NoRoute;
        }
        Consumed(node, "uth/verify");
        if |elem| == 0 {
          assert "/" + path == Text(Verify, "");
          answer := Reply(Verify, verb, "", "/" + path);
          return;
        }
      }
      ExitA(verb, node);
      return NoRoute;
    }

    method ServeInvites(verb: string, path: string) returns (answer: Answer)
      requires path != "" && path[0] == 'i'
      ensures answer == Dispatch(verb, "/" + path)
    {
      var elem := path;
      if StartsWith(elem, "invites") {
        elem := elem[|"invites"|..];
      } else {
        ExitI(verb, path);
        return NoRoute;
      }
      Consumed(path, "invites");
      if |elem| == 0 {
        answer := Reply(CreateInvite, verb, "", "/" + path);
        return;
      }
      ExitI(verb, path);
      return NoRoute;
    }

    method ServeLogin(verb: string, path: string) returns (answer: Answer)
      requires path != "" && path[0] == 'l'
      ensures answer == Dispatch(verb, "/" + path)
    {
      var elem := path;
      if StartsWith(elem, "login") {
        elem := elem[|"login"|..];
      } else {
        NotLogin(verb, path);
        return NoRoute;
      }
      Consumed(path, "login");
      if |elem| == 0 {
        answer := Reply(FinishLogin, verb, "", "/" + path);
        return;
      }
      ghost var rest := elem;
      if elem[0] == '/' {
        if StartsWith(elem, "/begin") {
          elem := elem[|"/begin"|..];
        } else {
          ExitLogin(verb, rest);
          return NoRoute;
        }
        Consumed(rest, "/begin");
        if |elem| == 0 {
          LeafBegin();
          answer := Reply(BeginLogin, verb, "", "/" + path);
          return;
        }
      }
      ExitLogin(verb, rest);
      return NoRoute;
    }

    method ServeRegistration(verb: string, path: string) returns (answer: Answer)
      requires path != "" && path[0] == 'r'
      ensures answer == Dispatch(verb, "/" + path)
    {
      var elem := path;
      if StartsWith(elem, "registration/") {
        elem := elem[|"registration/"|..];
      } else {
        NotRegistration(verb, path);
        return NoRoute;
      }
      Consumed(path, "registration/");
      ghost var rest := elem;
      if |elem| > 0 && elem[0] == 'b' {
        if StartsWith(elem, "begin") {
          elem := elem[|"begin"|..];
        } else {
          ExitRegistration(verb, rest);
          return NoRoute;
        }
        Consumed(rest, "begin");
        if |elem| == 0 {
          LeafRegistration(BeginRegistration);
          answer := Reply(BeginRegistration, verb, "", "/" + path);
          return;
        }
      } else if |elem| > 0 && elem[0] == 'c' {
        if StartsWith(elem, "complete") {
          elem := elem[|"complete"|..];
        } else {
          ExitRegistration(verb, rest);
          return NoRoute;
        }
        Consumed(rest, "complete");
        if |elem| == 0 {
          LeafRegistration(CompleteRegistration);
          answer := Reply(CompleteRegistration, verb, "", "/" + path);
          return;
        }
      }
      ExitRegistration(verb, rest);
      return NoRoute;
    }

    method ServeSessions(verb: string, path: string) returns (answer: Answer)
      requires path != "" && path[0] == 's'
      ensures answer == Dispatch(verb, "/" + path)
    {
      var elem := path;
      var args := [""];
      if StartsWith(elem, "sessions/") {
        elem := elem[|"sessions/"|..];
      } else {
        ExitS(verb, path);
        return NoRoute;
      }
      Consumed(path, "sessions/");
      var idx := IndexByte(elem, '/');
      if idx >= 0 {
        ExitS(verb, path);
        return NoRoute;
      }
      args := args[0 := elem];
      LeafSession(elem);
      elem := "";
      answer := Reply(RevokeSession, verb, args[0], "/" + path);
      return;
    }

    method ServeToken(verb: string, path: string) returns (answer: Answer)
      requires path != "" && path[0] == 't'
      ensures answer == Dispatch(verb, "/" + path)
    {
      var elem := path;
      if StartsWith(elem, "token/refresh") {
        elem := elem[|"token/refresh"|..];
      } else {
        ExitT(verb, path);
        return NoRoute;
      }
      Consumed(path, "token/refresh");
      if |elem| == 0 {
        answer := Reply(RefreshToken, verb, "", "/" + path);
        return;
      }
      ExitT(verb, path);
      return NoRoute;
    }

    /** The other copy finds an operation exactly when `ServeHTTP` calls its handler, with the same arguments and
        the pattern of its template. */
    method FindPath(verb: string, url: string) returns (found: Option<Found>)
      ensures FoundAs(found, Answered(verb, url))
    {
      var elem, ok := CutPrefix(url);
      assert ok ==> url[|prefix|..] == elem;
      if !ok {
        return None;
      }
      if |elem| > 1 && elem[0] == '/' {
        ghost var path := elem;
        elem := elem[|"/"|..];
        assert path == "/" + elem;
        match elem[0]
        case 'a' => found := FindAdmin(verb, elem); return;
        case 'i' => found := FindInvites(verb, elem); return;
        case 'l' => found := FindLogin(verb, elem); return;
        case 'r' => found := FindRegistration(verb, elem); return;
        case 's' => found := FindSessions(verb, elem); return;
        case 't' => found := FindToken(verb, elem); return;
        case _ => NoLetter(verb, path); return None;
      }
      NoLetter(verb, elem);
      return None;
    }

    /** The nine leaf switches of this copy. */
    method Report(op: Operation, verb: string, args: seq<string>, ghost path: string) returns (found: Option<Found>)
      requires |args| == 1 && Matches(op, args[0], path)
      ensures FoundAs(found, Dispatch(verb, path))
    {
      LeafReported(op, verb, args, path);
      match op
      case RevokeChain =>
        found := if verb == "POST" then Some(Found(op, "/admin/users/{userId}/revoke-chain", args, 1)) else None;
      case Verify => found := if verb == "GET" then Some(Found(op, "/auth/verify", args, 0)) else None;
      case CreateInvite => found := if verb == "POST" then Some(Found(op, "/invites", args, 0)) else None;
      case FinishLogin => found := if verb == "POST" then Some(Found(op, "/login", args, 0)) else None;
      case BeginLogin => found := if verb == "POST" then Some(Found(op, "/login/begin", args, 0)) else None;
      case BeginRegistration =>
        found := if verb == "POST" then Some(Found(op, "/registration/begin", args, 0)) else None;
      case CompleteRegistration =>
        found := if verb == "POST" then Some(Found(op, "/registration/complete", args, 0)) else None;
      case RevokeSession =>
        found := if verb == "DELETE" then Some(Found(op, "/sessions/{sessionId}", args, 1)) else None;
      case RefreshToken => found := if verb == "POST" then Some(Found(op, "/token/refresh", args, 0)) else None;
    }

    /** Below the parameter: `args` has it, `rest` starts at the next slash. */
    method FindUserAction(verb: string, args: seq<string>, rest: string) returns (found: Option<Found>)
      requires |args| == 1 && '/' !in args[0] && (rest == "" || rest[0] == '/')
      ensures FoundAs(found, Dispatch(verb, "/a" + ("dmin/users/" + (args[0] + rest))))
    {
      var elem := rest;
      if |elem| > 0 && elem[0] == '/' {
        if StartsWith(elem, "/revoke-chain") {
          elem := elem[|"/revoke-chain"|..];
        } else {
          ExitUsers(verb, args[0], rest);
          return None;
        }
        Consumed(rest, "/revoke-chain");
        if |elem| == 0 {
          LeafChain(args[0]);
          found := Report(RevokeChain, verb, args, "/a" + ("dmin/users/" + (args[0] + rest)));
          return;
        }
      }
      ExitUsers(verb, args[0], rest);
      return None;
    }

    method FindUsers(verb: string, path: string) returns (found: Option<Found>)
      requires path != "" && path[0] == 'd'
      ensures FoundAs(found, Dispatch(verb, "/a" + path))
    {
      var elem := path;
      var args := [""];
      if StartsWith(elem, "dmin/users/") {
        elem := elem[|"dmin/users/"|..];
      } else {
        ExitA(verb, path);
        return None;
      }
      Consumed(path, "dmin/users/");
      var idx := IndexByte(elem, '/');
      if idx < 0 {
        idx := |elem|;
      }
      args := args[0 := elem[..idx]];
      assert elem == args[0] + elem[idx..];
      found := FindUserAction(verb, args, elem[idx..]);
    }

    method FindAdmin(verb: string, path: string) returns (found: Option<Found>)
      requires path != "" && path[0] == 'a'
      ensures FoundAs(found, Dispatch(verb, "/" + path))
    {
      var elem := path;
      assert path[..1] == "a";
      elem := elem[|"a"|..];
      ghost var node := elem;
      assert "/" + path == "/a" + node;
      if |elem| > 0 && elem[0] == 'd' {
        found := FindUsers(verb, elem);
        return;
      } else if |elem| > 0 && elem[0] == 'u' {
        if StartsWith(elem, "uth/verify") {
          elem := elem[|"uth/verify"|..];
        } else {
          ExitA(verb, node);
          return None;
        }
        Consumed(node, "uth/verify");
        if |elem| == 0 {
          assert "/" + path == Text(Verify, "");
          found := Report(Verify, verb, [""], "/" + path);
          return;
        }
      }
      ExitA(verb, node);
      return None;
    }

    method FindInvites(verb: string, path: string) returns (found: Option<Found>)
      requires path != "" && path[0] == 'i'
      ensures FoundAs(found, Dispatch(verb, "/" + path))
    {
      var elem := path;
      if StartsWith(elem, "invites") {
        elem := elem[|"invites"|..];
      } else {
        ExitI(verb, path);
        return None;
      }
      Consumed(path, "invites");
      if |elem| == 0 {
        found := Report(CreateInvite, verb, [""], "/" + path);
        return;
      }
      ExitI(verb, path);
      return None;
    }

    method FindLogin(verb: string, path: string) returns (found: Option<Found>)
      requires path != "" && path[0] == 'l'
      ensures FoundAs(found, Dispatch(verb, "/" + path))
    {
      var elem := path;
      if StartsWith(elem, "login") {
        elem := elem[|"login"|..];
      } else {
        NotLogin(verb, path);
        return None;
      }
      Consumed(path, "login");
      if |elem| == 0 {
        found := Report(FinishLogin, verb, [""], "/" + path);
        return;
      }
      ghost var rest := elem;
      if elem[0] == '/' {
        if StartsWith(elem, "/begin") {
          elem := elem[|"/begin"|..];
        } else {
          ExitLogin(verb, rest);
          return None;
        }
        Consumed(rest, "/begin");
        if |elem| == 0 {
          LeafBegin();
          found := Report(BeginLogin, verb, [""], "/" + path);
          return;
        }
      }
      ExitLogin(verb, rest);
      return None;
    }

    method FindRegistration(verb: string, path: string) returns (found: Option<Found>)
      requires path != "" && path[0] == 'r'
      ensures FoundAs(found, Dispatch(verb, "/" + path))
    {
      var elem := path;
      if StartsWith(elem, "registration/") {
        elem := elem[|"registration/"|..];
      } else {
        NotRegistration(verb, path);
        return None;
      }
      Consumed(path, "registration/");
      ghost var rest := elem;
      if |elem| > 0 && elem[0] == 'b' {
        if StartsWith(elem, "begin") {
          elem := elem[|"begin"|..];
        } else {
          ExitRegistration(verb, rest);
          return None;
        }
        Consumed(rest, "begin");
        if |elem| == 0 {
          LeafRegistration(BeginRegistration);
          found := Report(BeginRegistration, verb, [""], "/" + path);
          return;
        }
      } else if |elem| > 0 && elem[0] == 'c' {
        if StartsWith(elem, "complete") {
          elem := elem[|"complete"|..];
        } else {
          ExitRegistration(verb, rest);
          return None;
        }
        Consumed(rest, "complete");
        if |elem| == 0 {
          LeafRegistration(CompleteRegistration);
          found := Report(CompleteRegistration, verb, [""], "/" + path);
          return;
        }
      }
      ExitRegistration(verb, rest);
      return None;
    }

    method FindSessions(verb: string, path: string) returns (found: Option<Found>)
      requires path != "" && path[0] == 's'
      ensures FoundAs(found, Dispatch(verb, "/" + path))
    {
      var elem := path;
      var args := [""];
      if StartsWith(elem, "sessions/") {
        elem := elem[|"sessions/"|..];
      } else {
        ExitS(verb, path);
        return None;
      }
      Consumed(path, "sessions/");
      var idx := IndexByte(elem, '/');
      if idx >= 0 {
        ExitS(verb, path);
        return None;
      }
      args := args[0 := elem];
      LeafSession(elem);
      elem := "";
      found := Report(RevokeSession, verb, args, "/" + path);
      return;
    }

    method FindToken(verb: string, path: string) returns (found: Option<Found>)
      requires path != "" && path[0] == 't'
      ensures FoundAs(found, Dispatch(verb, "/" + path))
    {
      var elem := path;
      if StartsWith(elem, "token/refresh") {
        elem := elem[|"token/refresh"|..];
      } else {
        ExitT(verb, path);
        return None;
      }
      Consumed(path, "token/refresh");
      if |elem| == 0 {
        found := Report(RefreshToken, verb, [""], "/" + path);
        return;
      }
      ExitT(verb, path);
      return None;
    }
  }
}
