/**
 * The relay broker (relay-server.js): command-line parsing, the HTTP preflight answer, the
 * upgrade gate (token check, then path routing) and the two connection sets with their
 * opposite-role fan-out. Sockets are numbered connections; whether a connection is OPEN at the
 * moment of a send is given as the set `open`; what the broker sends is returned as deliveries.
 */
module RelayServer {
  import opened Wrappers
  import opened Json
  import opened JsText

  const DefaultPort := 18792

  // ---------------------------------------------------------------------------------------------
  // Command line

  /** The settings read from the command line; `port == None` is the NaN that `parseInt` gives for a non-number. */
  datatype ServerArgs = ServerArgs(port: Option<int>, token: string)

  const Defaults := ServerArgs(Some(DefaultPort), "")

  /**
   * What the argument loop computes from `args` when the settings so far are `acc`: a `--port` or
   * `--token` followed by a non-empty argument takes that argument, which is then skipped;
   * every other argument is ignored.
   */
  function ScanArgs(args: seq<string>, acc: ServerArgs): ServerArgs
    decreases |args|
  {
    if |args| == 0 then acc
    else if args[0] == "--port" && |args| > 1 && args[1] != "" then
      ScanArgs(args[2..], acc.(port := ParseInt(args[1])))
    else if args[0] == "--token" && |args| > 1 && args[1] != "" then
      ScanArgs(args[2..], acc.(token := args[1]))
    else ScanArgs(args[1..], acc)
  }

  /** `parseArgs()` over `process.argv.slice(2)`. */
  method ParseArgs(args: seq<string>) returns (r: ServerArgs)
    ensures r == ScanArgs(args, Defaults)
  {
    var port: Option<int> := Some(DefaultPort);
    var token := "";
    var i := 0;
    while i < |args|
      invariant 0 <= i <= |args| + 1
      invariant ScanArgs(if i <= |args| then args[i..] else [], ServerArgs(port, token)) == ScanArgs(args, Defaults)
      decreases |args| - i
    {
      assert args[i..][1..] == args[i + 1..];
      if args[i] == "--port" && i + 1 < |args| && args[i + 1] != "" {
        assert args[i..][2..] == args[i + 2..];
        port := ParseInt(args[i + 1]);
        i := i + 1;
      } else if args[i] == "--token" && i + 1 < |args| && args[i + 1] != "" {
        assert args[i..][2..] == args[i + 2..];
        token := args[i + 1];
        i := i + 1;
      }
      i := i + 1;
    }
    r := ServerArgs(port, token);
  }

  predicate NoFlag(args: seq<string>) {
    forall i :: 0 <= i < |args| ==> args[i] != "--port" && args[i] != "--token"
  }

  /** Without `--port` and `--token` the settings stay as they were. */
  lemma {:induction false} ScanArgsWithoutFlags(args: seq<string>, acc: ServerArgs)
    requires NoFlag(args)
    ensures ScanArgs(args, acc) == acc
    decreases |args|
  {
    if |args| > 0 {
      assert NoFlag(args[1..]) by {
        forall i | 0 <= i < |args[1..]| ensures args[1..][i] != "--port" && args[1..][i] != "--token" {
          assert args[1..][i] == args[i + 1];
        }
      }
      ScanArgsWithoutFlags(args[1..], acc);
    }
  }

  /** `v` is a non-empty argument that directly follows the flag `flag`. */
  predicate FollowsFlag(args: seq<string>, flag: string, v: string) {
    exists i :: 1 <= i < |args| && args[i - 1] == flag && args[i] == v && v != ""
  }

  lemma FollowsFlagInSuffix(args: seq<string>, k: nat, flag: string, v: string)
    requires k <= |args| && FollowsFlag(args[k..], flag, v)
    ensures FollowsFlag(args, flag, v)
  {
    var i :| 1 <= i < |args[k..]| && args[k..][i - 1] == flag && args[k..][i] == v && v != "";
    assert args[k + i - 1] == flag && args[k + i] == v;
  }

  /** The token in the result is the starting one or a non-empty argument that directly follows a `--token`. */
  lemma {:induction false} ScanArgsTokenFollowsFlag(args: seq<string>, acc: ServerArgs)
    ensures ScanArgs(args, acc).token == acc.token || FollowsFlag(args, "--token", ScanArgs(args, acc).token)
    decreases |args|
  {
    var r := ScanArgs(args, acc);
    if |args| == 0 {
    } else if args[0] == "--port" && |args| > 1 && args[1] != "" {
      ScanArgsTokenFollowsFlag(args[2..], acc.(port := ParseInt(args[1])));
      if r.token != acc.token { FollowsFlagInSuffix(args, 2, "--token", r.token); }
    } else if args[0] == "--token" && |args| > 1 && args[1] != "" {
      ScanArgsTokenFollowsFlag(args[2..], acc.(token := args[1]));
      if r.token == args[1] {
        assert args[0] == "--token";
      } else {
        FollowsFlagInSuffix(args, 2, "--token", r.token);
      }
    } else {
      ScanArgsTokenFollowsFlag(args[1..], acc);
      if r.token != acc.token { FollowsFlagInSuffix(args, 1, "--token", r.token); }
    }
  }

  /** The port in the result is the starting one or the `parseInt` reading of a non-empty argument that directly follows a `--port`. */
  lemma {:induction false} ScanArgsPortFollowsFlag(args: seq<string>, acc: ServerArgs)
    ensures ScanArgs(args, acc).port == acc.port ||
      exists v :: FollowsFlag(args, "--port", v) && ScanArgs(args, acc).port == ParseInt(v)
    decreases |args|
  {
    var r := ScanArgs(args, acc);
    if |args| == 0 {
    } else if args[0] == "--port" && |args| > 1 && args[1] != "" {
      ScanArgsPortFollowsFlag(args[2..], acc.(port := ParseInt(args[1])));
      if r.port == ParseInt(args[1]) {
        assert FollowsFlag(args, "--port", args[1]) by { assert args[0] == "--port"; }
      } else {
        var v :| FollowsFlag(args[2..], "--port", v) && r.port == ParseInt(v);
        FollowsFlagInSuffix(args, 2, "--port", v);
      }
    } else if args[0] == "--token" && |args| > 1 && args[1] != "" {
      ScanArgsPortFollowsFlag(args[2..], acc.(token := args[1]));
      if r.port != acc.port {
        var v :| FollowsFlag(args[2..], "--port", v) && r.port == ParseInt(v);
        FollowsFlagInSuffix(args, 2, "--port", v);
      }
    } else {
      ScanArgsPortFollowsFlag(args[1..], acc);
      if r.port != acc.port {
        var v :| FollowsFlag(args[1..], "--port", v) && r.port == ParseInt(v);
        FollowsFlagInSuffix(args, 1, "--port", v);
      }
    }
  }

  /** Arguments without flags are skipped one at a time, so the scan goes on from the same settings. */
  lemma {:induction false} ScanArgsSkipsPlainPrefix(pre: seq<string>, rest: seq<string>, acc: ServerArgs)
    requires NoFlag(pre)
    ensures ScanArgs(pre + rest, acc) == ScanArgs(rest, acc)
    decreases |pre|
  {
    if pre != [] {
      assert (pre + rest)[1..] == pre[1..] + rest;
      assert NoFlag(pre[1..]) by {
        forall i | 0 <= i < |pre[1..]| ensures pre[1..][i] != "--port" && pre[1..][i] != "--token" {
          assert pre[1..][i] == pre[i + 1];
        }
      }
      assert (pre + rest)[0] == pre[0] && pre[0] != "--port" && pre[0] != "--token";
      assert ScanArgs(pre + rest, acc) == ScanArgs(pre[1..] + rest, acc);
      ScanArgsSkipsPlainPrefix(pre[1..], rest, acc);
    } else {
      assert pre + rest == rest;
    }
  }

  /**
   * `--token v` with a non-empty `v` takes effect when nothing before it is a flag and nothing
   * after it overrides it.
   */
  lemma TokenFlagTakesEffect(pre: seq<string>, v: string, post: seq<string>, acc: ServerArgs)
    requires NoFlag(pre) && NoFlag(post) && v != ""
    ensures ScanArgs(pre + ["--token", v] + post, acc) == acc.(token := v)
  {
    var tok: seq<string> := ["--token", v] + post;
    assert pre + ["--token", v] + post == pre + tok;
    ScanArgsSkipsPlainPrefix(pre, tok, acc);
    assert tok[2..] == post;
    ScanArgsWithoutFlags(post, acc.(token := v));
  }

  /**
   * `--port v` with a non-empty `v` sets the port to `parseInt(v)` when nothing before it is a
   * flag and nothing after it overrides it.
   */
  lemma PortFlagTakesEffect(pre: seq<string>, v: string, post: seq<string>, acc: ServerArgs)
    requires NoFlag(pre) && NoFlag(post) && v != ""
    ensures ScanArgs(pre + ["--port", v] + post, acc) == acc.(port := ParseInt(v))
  {
    var prt: seq<string> := ["--port", v] + post;
    assert pre + ["--port", v] + post == pre + prt;
    ScanArgsSkipsPlainPrefix(pre, prt, acc);
    assert prt[2..] == post;
    ScanArgsWithoutFlags(post, acc.(port := ParseInt(v)));
  }

  /** `--port --token x`: the flag name is taken as the port text (NaN) and `x` is ignored. */
  lemma PortFlagSwallowsNextFlag()
    ensures ScanArgs(["--port", "--token", "x"], Defaults) == ServerArgs(None, "")
  {
    var t := "--token";
    assert t[0] == '-' && !IsJsSpace(t[0]);
    assert TrimStart(t) == t;
    assert t[1..][0] == '-';
    assert ParseInt(t) == None;
    var args := ["--port", "--token", "x"];
    assert args[2..] == ["x"];
    assert ["x"][1..] == [];
  }

  // ---------------------------------------------------------------------------------------------
  // HTTP preflight and upgrade gate

  datatype HttpReply = HttpReply(status: int, body: string)

  const PreflightBody := "CDPilot Relay Server is running.\n"

  /** The plain HTTP handler: a liveness probe for HEAD and GET, 404 for every other method. */
  function Preflight(httpMethod: string): (r: HttpReply)
    ensures r.status == 200 <==> httpMethod == "HEAD" || httpMethod == "GET"
    ensures r.status == 404 <==> !(httpMethod == "HEAD" || httpMethod == "GET")
    ensures r.body != "" <==> httpMethod == "GET"
  {
    if httpMethod == "HEAD" || httpMethod == "GET" then
      HttpReply(200, if httpMethod == "GET" then PreflightBody else "")
    else HttpReply(404, "")
  }

  datatype Role = Extension | Client

  datatype UpgradeOutcome = Unauthorized | NotFound | Accepted(role: Role)

  /** The token test: with a configured token, the `token` query parameter (missing reads as `''`) must equal it. */
  predicate TokenAccepted(configured: string, queryToken: Option<string>) {
    configured == "" || queryToken.GetOr("") == configured
  }

  /**
   * The `upgrade` handler's decision for a request with path `path` and query parameter
   * `queryToken`: 401 before any routing when the token test fails, then `/extension` and
   * `/client` join their role and any other path gets 404.
   */
  function Gate(configured: string, path: string, queryToken: Option<string>): (r: UpgradeOutcome)
    ensures r == Unauthorized <==> !TokenAccepted(configured, queryToken)
    ensures r == Accepted(Extension) <==> TokenAccepted(configured, queryToken) && path == "/extension"
    ensures r == Accepted(Client) <==> TokenAccepted(configured, queryToken) && path == "/client"
    ensures r == NotFound <==> TokenAccepted(configured, queryToken) && path != "/extension" && path != "/client"
  {
    if configured != "" && queryToken.GetOr("") != configured then Unauthorized
    else if path == "/extension" then Accepted(Extension)
    else if path == "/client" then Accepted(Client)
    else NotFound
  }

  /** With no token configured, no upgrade is refused as unauthorized. */
  lemma GateWithoutToken(path: string, queryToken: Option<string>)
    ensures Gate("", path, queryToken) != Unauthorized
  {
  }

  // ---------------------------------------------------------------------------------------------
  // Messages

  type ConnId = nat

  /** One `ws.send(text)` on connection `to`. */
  datatype Delivery = Delivery(to: ConnId, text: string)

  const PongText := "{\"method\":\"pong\"}"
  const ClientConnectedText := "{\"method\":\"clientConnected\"}"

  /** What the broker does with an incoming frame (the same rule on both ends). */
  datatype Handling = AnswerPing | DropPong | Forward

  /**
   * A frame whose parsed value has `method === 'ping'` is answered, `'pong'` is dropped; text
   * that is not JSON, and JSON whose `method` is anything else or missing, is forwarded.
   */
  function Classify(f: Frame): (h: Handling)
    ensures h == AnswerPing <==> f.json.Some? && PropIs(f.json.value, "method", "ping")
    ensures h == DropPong <==> f.json.Some? && PropIs(f.json.value, "method", "pong")
    ensures f.json.None? ==> h == Forward
  {
    match f.json
    case None => Forward
    case Some(v) =>
      if PropIs(v, "method", "ping") then AnswerPing
      else if PropIs(v, "method", "pong") then DropPong
      else Forward
  }

  predicate NoDup<T(==)>(s: seq<T>) {
    forall i, j :: 0 <= i < j < |s| ==> s[i] != s[j]
  }

  /** The recipients of a list of deliveries, in order. */
  function Recipients(out: seq<Delivery>): (r: seq<ConnId>)
    ensures |r| == |out|
    ensures forall i :: 0 <= i < |out| ==> r[i] == out[i].to
  {
    if out == [] then [] else Recipients(out[..|out| - 1]) + [out[|out| - 1].to]
  }

  /** One send of `text` to each member of `targets` that is OPEN, in the set's order. */
  function FanOut(targets: seq<ConnId>, text: string, open: set<ConnId>): (out: seq<Delivery>)
    ensures |out| <= |targets|
    ensures forall d :: d in out <==> d.text == text && d.to in targets && d.to in open
  {
    if targets == [] then []
    else
      var last := targets[|targets| - 1];
      var front := FanOut(targets[..|targets| - 1], text, open);
      assert forall c :: c in targets <==> c in targets[..|targets| - 1] || c == last;
      front + (if last in open then [Delivery(last, text)] else [])
  }

  /** Over a set without repeats, every OPEN member receives exactly one copy. */
  lemma {:induction false} FanOutOncePerMember(targets: seq<ConnId>, text: string, open: set<ConnId>)
    requires NoDup(targets)
    ensures NoDup(Recipients(FanOut(targets, text, open)))
  {
    if targets != [] {
      var front := targets[..|targets| - 1];
      var last := targets[|targets| - 1];
      FanOutOncePerMember(front, text, open);
      var out := FanOut(targets, text, open);
      var out0 := FanOut(front, text, open);
      if last in open {
        assert out == out0 + [Delivery(last, text)];
        assert Recipients(out) == Recipients(out0) + [last];
        forall i | 0 <= i < |out0| ensures Recipients(out0)[i] != last {
          assert out0[i] in out0;
          assert out0[i].to in front;
        }
      } else {
        assert out == out0;
      }
    }
  }

  /** The forwarding loop `for (const client of targets) if (client.readyState === OPEN) client.send(text)`. */
  method SendToOpen(targets: seq<ConnId>, text: string, open: set<ConnId>) returns (out: seq<Delivery>)
    ensures out == FanOut(targets, text, open)
  {
    out := [];
    for k := 0 to |targets|
      invariant out == FanOut(targets[..k], text, open)
    {
      assert targets[..k + 1][..k] == targets[..k];
      if targets[k] in open {
        out := out + [Delivery(targets[k], text)];
      }
    }
    assert targets[..|targets|] == targets;
  }

  /** The elements of `s` other than `c`, in order: `Set.prototype.delete`. */
  function Without(s: seq<ConnId>, c: ConnId): (r: seq<ConnId>)
    ensures forall x :: x in r <==> x in s && x != c
    ensures NoDup(s) ==> NoDup(r)
    ensures c !in s ==> r == s
  {
    if s == [] then []
    else
      var r0 := Without(s[..|s| - 1], c);
      assert forall x :: x in s <==> x in s[..|s| - 1] || x == s[|s| - 1];
      if s[|s| - 1] == c then r0
      else
        assert NoDup(s) ==> s[|s| - 1] !in s[..|s| - 1];
        r0 + [s[|s| - 1]]
  }

  // ---------------------------------------------------------------------------------------------
  // The broker

  class Broker {
    /** The configured token (`''` for none). */
    const token: string
    /** `extensionClients` and `apiClients`, in insertion order. */
    var extensionClients: seq<ConnId>
    var apiClients: seq<ConnId>
    /** The role each accepted connection was given; its handlers stay bound to that role. */
    var role: map<ConnId, Role>
    /** The number of connections accepted so far, which is also the next connection's number. */
    var nextConn: ConnId

    ghost predicate Valid()
      reads this
    {
      NoDup(extensionClients) && NoDup(apiClients) &&
      (forall c :: c in extensionClients ==> c in role && role[c] == Extension) &&
      (forall c :: c in apiClients ==> c in role && role[c] == Client) &&
      (forall c :: c in role ==> c < nextConn)
    }

    /** The set a connection of role `r` forwards to. */
    function Opposite(r: Role): seq<ConnId>
      reads this
    {
      if r == Extension then apiClients else extensionClients
    }

    constructor (token: string)
      ensures Valid()
      ensures this.token == token
      ensures extensionClients == [] && apiClients == [] && role == map[] && nextConn == 0
    {
      this.token := token;
      extensionClients, apiClients := [], [];
      role, nextConn := map[], 0;
    }

    /**
     * The `upgrade` event: the gate's decision, then, for an accepted request, a new connection
     * that joins its role's set. A new client also sends one `clientConnected` to each OPEN extension.
     */
    method Upgrade(path: string, queryToken: Option<string>, open: set<ConnId>)
        returns (outcome: UpgradeOutcome, conn: Option<ConnId>, out: seq<Delivery>)
      requires Valid()
      modifies this
      ensures Valid()
      ensures outcome == Gate(token, path, queryToken)
      ensures outcome.Accepted? <==> conn.Some?
      ensures conn.Some? ==>
        conn.value == old(nextConn) && conn.value !in old(role) &&
        role == old(role)[conn.value := outcome.role] && nextConn == old(nextConn) + 1
      ensures outcome == Accepted(Extension) ==>
        extensionClients == old(extensionClients) + [conn.value] && apiClients == old(apiClients) && out == []
      ensures outcome == Accepted(Client) ==>
        apiClients == old(apiClients) + [conn.value] && extensionClients == old(extensionClients) &&
        out == FanOut(old(extensionClients), ClientConnectedText, open)
      ensures !outcome.Accepted? ==>
        extensionClients == old(extensionClients) && apiClients == old(apiClients) &&
        role == old(role) && nextConn == old(nextConn) && out == []
    {
      outcome := Gate(token, path, queryToken);
      out := [];
      conn := None;
      if outcome.Accepted? {
        var c := nextConn;
        assert c !in extensionClients && c !in apiClients;
        nextConn := nextConn + 1;
        role := role[c := outcome.role];
        conn := Some(c);
        if outcome.role == Extension {
          extensionClients := extensionClients + [c];
        } else {
          apiClients := apiClients + [c];
          out := SendToOpen(extensionClients, ClientConnectedText, open);
        }
      }
    }

    /**
     * A text frame arriving on connection `from`: a ping is answered on `from` itself, a pong is
     * dropped, anything else goes verbatim to every OPEN member of the opposite role's set.
     */
    method OnMessage(from: ConnId, f: Frame, open: set<ConnId>) returns (out: seq<Delivery>)
      requires Valid() && from in role
      ensures Classify(f) == AnswerPing ==> out == [Delivery(from, PongText)]
      ensures Classify(f) == DropPong ==> out == []
      ensures Classify(f) == Forward ==>
        forall d :: d in out <==> d.text == f.text && d.to in Opposite(role[from]) && d.to in open
      ensures Classify(f) == Forward ==> NoDup(Recipients(out))
      ensures forall d :: d in out && d.to != from ==> d.to in role && role[d.to] != role[from]
    {
      match Classify(f)
      case AnswerPing => out := [Delivery(from, PongText)];
      case DropPong => out := [];
      case Forward =>
        out := SendToOpen(Opposite(role[from]), f.text, open);
        FanOutOncePerMember(Opposite(role[from]), f.text, open);
    }

    /** The `close` and `error` handlers: the connection leaves its own set and nothing else changes. */
    method Close(c: ConnId)
      requires Valid() && c in role
      modifies this
      ensures Valid()
      ensures role == old(role) && nextConn == old(nextConn)
      ensures role[c] == Extension ==>
        extensionClients == Without(old(extensionClients), c) && apiClients == old(apiClients)
      ensures role[c] == Client ==>
        apiClients == Without(old(apiClients), c) && extensionClients == old(extensionClients)
    {
      if role[c] == Extension {
        extensionClients := Without(extensionClients, c);
      } else {
        apiClients := Without(apiClients, c);
      }
    }
  }
}
