/**
 * Sequences of requests from one browser against one session, and what can
 * be said about them as a whole.
 */
module Scenarios {
  import opened Wrappers
  import opened Http
  import opened Users
  import opened Server

  /** The session after a run of requests, and the responses in request order. */
  datatype Trace = Trace(session: Session, responses: seq<Response>)

  /** Handles the requests one after another, each seeing the session the previous one left. */
  function Run(s: Session, reqs: seq<Request>): (t: Trace)
    ensures |t.responses| == |reqs|
    decreases |reqs|
  {
    if |reqs| == 0 then Trace(s, [])
    else
      var o := Step(s, reqs[0]);
      var rest := Run(o.session, reqs[1..]);
      Trace(rest.session, [o.response] + rest.responses)
  }

  /** What a request does to the session: install a snapshot, clear it, or keep it. */
  datatype Effect = Install(snapshot: Snapshot) | Clear | Keep

  /**
   * The effect of a request, independent of the session it meets: a
   * successful login installs a snapshot, a successful logout clears, and
   * everything else keeps.
   */
  function EffectOf(req: Request): Effect {
    match req
    case PostLogin(n, p) =>
      if exists i :: 0 <= i < |Seed| && Matches(Seed[i], n, p)
      then Install(SnapshotOf(Find(Seed, n, p).value))
      else Keep
    case PostLogout(destroyFails) => if destroyFails then Keep else Clear
    case _ => Keep
  }

  /** The session as the last request with an effect left it, scanning from the end of the run. */
  function Latest(s: Session, reqs: seq<Request>): Session
    decreases |reqs|
  {
    if |reqs| == 0 then s
    else match EffectOf(reqs[|reqs| - 1])
      case Install(snapshot) => Some(snapshot)
      case Clear => None
      case Keep => Latest(s, reqs[..|reqs| - 1])
  }

  /** A successful login: some seed record matches the submitted fields. */
  predicate SuccessfulLogin(req: Request) {
    req.PostLogin? && exists i :: 0 <= i < |Seed| && Matches(Seed[i], req.username, req.password)
  }

  /** The session holds nothing, or the snapshot of some seed record. */
  ghost predicate SeedSession(s: Session) {
    s.None? || exists i :: 0 <= i < |Seed| && s.value == SnapshotOf(Seed[i])
  }

  /** One step agrees with the request's effect. */
  lemma StepFollowsEffect(s: Session, req: Request)
    ensures EffectOf(req).Install? ==> Step(s, req).session == Some(EffectOf(req).snapshot)
    ensures EffectOf(req).Clear? ==> Step(s, req).session.None?
    ensures EffectOf(req).Keep? ==> Step(s, req).session == s
  {
  }

  /** Running a concatenation is running the parts in turn. */
  lemma {:induction false} RunAppend(s: Session, a: seq<Request>, b: seq<Request>)
    ensures Run(s, a + b).session == Run(Run(s, a).session, b).session
    ensures Run(s, a + b).responses == Run(s, a).responses + Run(Run(s, a).session, b).responses
    decreases |a|
  {
    if |a| == 0 {
      assert a + b == b;
    } else {
      var o := Step(s, a[0]);
      assert (a + b)[1..] == a[1..] + b;
      RunAppend(o.session, a[1..], b);
    }
  }

  /** Prepending a request to the run is the same as starting from the session it produces. */
  lemma {:induction false} LatestPrepend(s: Session, r: Request, reqs: seq<Request>)
    ensures Latest(s, [r] + reqs) == Latest(Step(s, r).session, reqs)
    decreases |reqs|
  {
    if |reqs| == 0 {
      StepFollowsEffect(s, r);
    } else {
      var all := [r] + reqs;
      assert all[|all| - 1] == reqs[|reqs| - 1];
      assert all[..|all| - 1] == [r] + reqs[..|reqs| - 1];
      LatestPrepend(s, r, reqs[..|reqs| - 1]);
    }
  }

  /**
   * The session a run leaves behind is the one the last effective request
   * installed, or the starting session when no request had an effect.
   */
  lemma {:induction false} RunIsLatest(s: Session, reqs: seq<Request>)
    ensures Run(s, reqs).session == Latest(s, reqs)
    decreases |reqs|
  {
    if |reqs| > 0 {
      RunIsLatest(Step(s, reqs[0]).session, reqs[1..]);
      assert reqs == [reqs[0]] + reqs[1..];
      LatestPrepend(s, reqs[0], reqs[1..]);
    }
  }

  /** Without a successful login, a run cannot install a user; the starting session or none remains. */
  lemma {:induction false} NoLoginNoNewUser(s: Session, reqs: seq<Request>)
    requires forall k :: 0 <= k < |reqs| ==> !SuccessfulLogin(reqs[k])
    ensures Latest(s, reqs) == s || Latest(s, reqs).None?
    ensures Run(s, reqs).session == s || Run(s, reqs).session.None?
    decreases |reqs|
  {
    if |reqs| > 0 {
      NoLoginNoNewUser(s, reqs[..|reqs| - 1]);
    }
    RunIsLatest(s, reqs);
  }

  /** After a successful logout and no later successful login, the session holds no user. */
  lemma {:induction false} LogoutSticks(s: Session, before: seq<Request>, after: seq<Request>)
    requires forall k :: 0 <= k < |after| ==> !SuccessfulLogin(after[k])
    ensures Run(s, before + [PostLogout(false)] + after).session.None?
  {
    var pre := before + [PostLogout(false)];
    RunAppend(s, pre, after);
    RunAppend(s, before, [PostLogout(false)]);
    var mid := Run(s, pre).session;
    assert mid.None?;
    RunIsLatest(mid, after);
    NoLoginNoNewUser(mid, after);
  }

  /**
   * Whatever came before, a successful logout followed by requests that do not
   * log in makes the next `GET /home` redirect to the login-required form.
   */
  lemma HomeAfterLogoutRedirects(s: Session, before: seq<Request>, after: seq<Request>)
    requires forall k :: 0 <= k < |after| ==> !SuccessfulLogin(after[k])
    ensures var run := before + [PostLogout(false)] + after + [GetHome];
      Run(s, run).responses[|run| - 1] == Redirect(LoginRequired)
  {
    var pre := before + [PostLogout(false)] + after;
    LogoutSticks(s, before, after);
    RunAppend(s, pre, [GetHome]);
  }

  /** Every step keeps the session either empty or a seed record's snapshot. */
  lemma StepKeepsSeedSession(s: Session, req: Request)
    requires SeedSession(s)
    ensures SeedSession(Step(s, req).session)
  {
  }

  /**
   * Starting with no user or a seed record's snapshot, every session a run
   * reaches is again one of those, so every home page greets a seed username.
   */
  lemma {:induction false} RunKeepsSeedSession(s: Session, reqs: seq<Request>)
    requires SeedSession(s)
    ensures SeedSession(Run(s, reqs).session)
    ensures forall k :: 0 <= k < |reqs| && Run(s, reqs).responses[k].Render? && Run(s, reqs).responses[k].page.Welcome? ==>
      exists i :: 0 <= i < |Seed| && Run(s, reqs).responses[k].page.username == Seed[i].username
    decreases |reqs|
  {
    if |reqs| > 0 {
      var o := Step(s, reqs[0]);
      StepKeepsSeedSession(s, reqs[0]);
      RunKeepsSeedSession(o.session, reqs[1..]);
      var t := Run(s, reqs);
      var rest := Run(o.session, reqs[1..]);
      assert t.responses == [o.response] + rest.responses;
      forall k | 0 <= k < |reqs| && t.responses[k].Render? && t.responses[k].page.Welcome?
        ensures exists i :: 0 <= i < |Seed| && t.responses[k].page.username == Seed[i].username
      {
        if k == 0 {
          assert o.response.Render?;
        } else {
          assert t.responses[k] == rest.responses[k - 1];
        }
      }
    }
  }

  /** The example session: log in as user1, see home, log out, and be turned away from home. */
  lemma User1Scenario()
    ensures Run(None, [PostLogin(Text("user1"), Text("password1")), GetHome, PostLogout(false), GetHome]).responses
         == [Redirect(Home), Render(Welcome("user1")), Redirect(Login), Redirect(LoginRequired)]
  {
    LoginWithSeedCredentials(None, 0);
  }
}
