/**
  The live browser seen as data. A site is a list of pages; each page is the list of DOM
  snapshots it passes through while it is being polled (the last one persists). A session
  says which page the browser shows and how many polls of it have gone by. Sleeps, scrolls and
  mouse moves are what make time pass between two polls; here that is `Tick`.
*/
module Browser {
  import opened Dom

  datatype Session = Session(site: seq<seq<Node>>, page: nat, clock: nat)

  /** What the browser shows beyond the last page given: an empty document. */
  const Blank: Node := Node("html", [], map[], "", [])

  /** The DOM the driver would query now. */
  function Current(s: Session): Node {
    if s.page < |s.site| && |s.site[s.page]| > 0 then
      var timeline := s.site[s.page];
      timeline[if s.clock < |timeline| then s.clock else |timeline| - 1]
    else Blank
  }

  /** One poll has gone by on the current page. */
  function Tick(s: Session): Session {
    s.(clock := s.clock + 1)
  }

  /** A click on "next" went through: the browser shows the following page, freshly loaded. */
  function Click(s: Session): Session {
    s.(page := s.page + 1, clock := 0)
  }

  /** The DOM `k` polls from now, on the same page. */
  function Later(s: Session, k: nat): Node {
    Current(s.(clock := s.clock + k))
  }

  /**
    A bounded readiness loop: up to `attempts` polls, each reading the current DOM and
    stopping at the first on which `ready` holds; the session comes back as it stands then.
  */
  function Poll(s: Session, attempts: nat, ready: Node -> bool): (bool, Session)
    decreases attempts
  {
    if attempts == 0 then (false, s)
    else if ready(Current(s)) then (true, s)
    else Poll(Tick(s), attempts - 1, ready)
  }

  /**
    What a readiness loop promises: it succeeds exactly when one of the first `attempts` polls
    finds the page ready, and then it stops at the first such poll; otherwise all `attempts`
    polls have gone by. The page is never changed.
  */
  lemma {:induction false} PollMeaning(s: Session, attempts: nat, ready: Node -> bool)
    ensures var (ok, t) := Poll(s, attempts, ready);
      && t.site == s.site && t.page == s.page && s.clock <= t.clock
      && (ok ==> t.clock < s.clock + attempts && ready(Current(t)))
      && (!ok ==> t.clock == s.clock + attempts)
      && (forall k :: 0 <= k < t.clock - s.clock ==> !ready(Later(s, k)))
    decreases attempts
  {
    if attempts > 0 && !ready(Current(s)) {
      PollMeaning(Tick(s), attempts - 1, ready);
      var (ok, t) := Poll(Tick(s), attempts - 1, ready);
      forall k | 0 <= k < t.clock - s.clock ensures !ready(Later(s, k)) {
        if k > 0 {
          assert Later(s, k) == Later(Tick(s), k - 1);
        } else {
          assert s.(clock := s.clock + 0) == s;
        }
      }
    }
  }

  /** A readiness loop succeeds exactly when the page is ready at one of its `attempts` polls. */
  lemma PollSucceeds(s: Session, attempts: nat, ready: Node -> bool)
    ensures Poll(s, attempts, ready).0 <==> exists k: nat :: k < attempts && ready(Later(s, k))
  {
    PollMeaning(s, attempts, ready);
    var (ok, t) := Poll(s, attempts, ready);
    if ok {
      assert Later(s, t.clock - s.clock) == Current(t) by {
        assert s.(clock := s.clock + (t.clock - s.clock)) == t;
      }
    }
  }

  /**
    A presence wait (Selenium's `WebDriverWait`) on `gate` for up to `gateWait` polls, then a
    readiness loop of `attempts` polls; a failed presence wait ends the whole wait.
  */
  function GatedPoll(s: Session, gateWait: nat, gate: Node -> bool, attempts: nat, ready: Node -> bool): (bool, Session) {
    var (open, s1) := Poll(s, gateWait, gate);
    if !open then (false, s1) else Poll(s1, attempts, ready)
  }

  /**
    A gated wait succeeds only on a ready page; it fails whenever the gate never shows within its
    polls; and with the gate already showing, it succeeds exactly when one of the `attempts`
    polls finds the page ready.
  */
  lemma GatedPollMeaning(s: Session, gateWait: nat, gate: Node -> bool, attempts: nat, ready: Node -> bool)
    ensures var r := GatedPoll(s, gateWait, gate, attempts, ready);
      && r.1.site == s.site && r.1.page == s.page && s.clock <= r.1.clock
      && (r.0 ==> ready(Current(r.1)))
    ensures (forall a: nat :: a < gateWait ==> !gate(Later(s, a))) ==> !GatedPoll(s, gateWait, gate, attempts, ready).0
    ensures gateWait > 0 && gate(Current(s)) ==>
      (GatedPoll(s, gateWait, gate, attempts, ready).0 <==> exists k: nat :: k < attempts && ready(Later(s, k)))
  {
    PollMeaning(s, gateWait, gate);
    var (open, s1) := Poll(s, gateWait, gate);
    PollMeaning(s1, attempts, ready);
    if gateWait > 0 && gate(Current(s)) {
      assert s1 == s;
      assert Later(s, 0) == Current(s) by {
        assert s.(clock := s.clock + 0) == s;
      }
      var (ok, t) := Poll(s, attempts, ready);
      if ok {
        assert Later(s, t.clock - s.clock) == Current(t) by {
          assert s.(clock := s.clock + (t.clock - s.clock)) == t;
        }
      }
    } else if open {
      assert Later(s, s1.clock - s.clock) == Current(s1) by {
        assert s.(clock := s.clock + (s1.clock - s.clock)) == s1;
      }
    }
  }
}
