/** Checkout, commit and push against a shared branch (agent/gitwrite.py). */
module GitWrite {
  import opened Prelude

  /** A commit is named by its parent and everything else its digest covers (tree, message, identity,
      second of the clock); equal contents mean the same commit. */
  datatype Commit = Root(id: int) | Child(parent: Commit, change: int)

  /** `a` is `c` or an ancestor of it. */
  predicate IsAncestor(a: Commit, c: Commit) {
    a == c || (c.Child? && IsAncestor(a, c.parent))
  }

  lemma {:induction false} AncestorTransitive(a: Commit, b: Commit, c: Commit)
    requires IsAncestor(a, b) && IsAncestor(b, c)
    ensures IsAncestor(a, c)
    decreases c
  {
    if b != c {
      AncestorTransitive(a, b, c.parent);
    }
  }

  /** History is a chain: two ancestors of one commit are comparable. */
  lemma {:induction false} AncestorsComparable(a: Commit, b: Commit, c: Commit)
    requires IsAncestor(a, c) && IsAncestor(b, c)
    ensures IsAncestor(a, b) || IsAncestor(b, a)
    decreases c
  {
    if a != c && b != c {
      AncestorsComparable(a, b, c.parent);
    }
  }

  /** A private clone: its remote-tracking ref, its local branch and HEAD. */
  datatype CloneState = CloneState(tracking: Option<Commit>, local: Option<Commit>, head: Commit)

  /** `fetch_remote_branch`: without success, or without a remote branch, the tracking ref stays. */
  function Fetched(clone: CloneState, remote: Option<Commit>, reachable: bool): CloneState {
    if reachable && remote.Some? then clone.(tracking := remote) else clone
  }

  /** `checkout_existing_branch`, which fetches again. */
  function CheckedOutExisting(clone: CloneState, remote: Option<Commit>, reachable: bool): Result<CloneState, Fault> {
    var after := Fetched(clone, remote, reachable);
    if reachable && remote.Some? then Ok(after.(local := after.tracking, head := after.tracking.value))
    else if after.local.Some? then Ok(after.(head := after.local.value))
    else Err(Unavailable)
  }

  /** `checkout_delivery_parent` after its own fetch. */
  function CheckedOut(clone: CloneState, base: Commit, remote: Option<Commit>, reachable: bool)
    : Result<CloneState, Fault>
  {
    if clone.tracking.Some? && clone.tracking.value != base then Err(Refused)
    else
      var after :- if clone.tracking.Some? || clone.local.Some? then CheckedOutExisting(clone, remote, reachable)
                   else Ok(clone.(local := Some(base), head := base));
      if after.head != base then Err(Refused) else Ok(after)
  }

  /** `commit_paths`: an empty patch makes no commit. */
  function Committed(clone: CloneState, change: Option<int>): CloneState {
    if change.None? then clone
    else clone.(head := Child(clone.head, change.value), local := Some(Child(clone.head, change.value)))
  }

  /** Whether the remote takes a push: only a fast-forward, or a new branch. */
  predicate FastForward(remote: Option<Commit>, head: Commit) {
    remote.None? || IsAncestor(remote.value, head)
  }

  /** The branch as GitHub holds it. */
  class Remote {
    var tip: Option<Commit>

    constructor (tip: Option<Commit>)
      ensures this.tip == tip
    {
      this.tip := tip;
    }

    /** The server's side of a push. */
    method Receive(head: Commit) returns (accepted: bool)
      modifies this
      ensures accepted <==> FastForward(old(tip), head)
      ensures tip == if accepted then Some(head) else old(tip)
      ensures old(tip).Some? ==> tip.Some? && IsAncestor(old(tip).value, tip.value)
    {
      accepted := tip.None? || IsAncestor(tip.value, head);
      if accepted {
        tip := Some(head);
      }
    }
  }

  /** What git answers when it is asked to commit. */
  datatype CommitAnswer = Commits(change: int) | NothingToCommit | CommitFails

  /** The connection during one push, and whether the server takes it at all. */
  datatype Link = Up | Down | AnswerLost | Declined

  /** A clone as the delivery job changes it. */
  class Clone {
    const remote: Remote
    var tracking: Option<Commit>
    var local: Option<Commit>
    var head: Commit

    function State(): CloneState
      reads this
    {
      CloneState(tracking, local, head)
    }

    constructor (remote: Remote, start: CloneState)
      ensures this.remote == remote && State() == start
    {
      this.remote := remote;
      tracking, local, head := start.tracking, start.local, start.head;
    }

    method FetchRemoteBranch(reachable: bool) returns (ok: bool)
      modifies this`tracking
      ensures State() == Fetched(old(State()), remote.tip, reachable)
      ensures ok <==> reachable && remote.tip.Some?
    {
      ok := reachable && remote.tip.Some?;
      if ok {
        tracking := remote.tip;
      }
    }

    method CheckoutExistingBranch(reachable: bool) returns (fault: Option<Fault>)
      modifies this
      ensures var want := CheckedOutExisting(old(State()), remote.tip, reachable);
              match want case Ok(after) => fault.None? && State() == after case Err(f) => fault == Some(f)
    {
      var fetched := FetchRemoteBranch(reachable);
      if fetched && tracking.Some? {
        local, head := tracking, tracking.value;
        return None;
      }
      if local.Some? {
        head := local.value;
        return None;
      }
      return Some(Unavailable);
    }

    /** `checkout_delivery_parent`.  `known`: the base is a commit here; `between`: what somebody else
        pushes between its two fetches. */
    method CheckoutDeliveryParent(base: Commit, known: bool, reachable: bool, between: Option<Commit>,
        reachableAgain: bool)
      returns (fault: Option<Fault>)
      modifies this, remote
      ensures !known ==> fault == Some(Refused) && State() == old(State()) && remote.tip == old(remote.tip)
      ensures known ==>
                && remote.tip == (if between.Some? &&
                    FastForward(old(remote.tip), between.value) then between else old(remote.tip))
                && var want := CheckedOut(Fetched(old(State()), old(remote.tip), reachable), base, remote.tip,
                    reachableAgain);
                   match want case Ok(after) => fault.None? && State() == after case Err(f) => fault == Some(f)
      ensures fault.None? ==> head == base
      ensures reachable && old(remote.tip).Some? && old(remote.tip).value != base ==> fault == Some(Refused)
    {
      if !known {
        return Some(Refused);
      }
      var _ := FetchRemoteBranch(reachable);
      if between.Some? {
        var _ := remote.Receive(between.value);
      }
      if tracking.Some? {
        if tracking.value != base {
          return Some(Refused);
        }
        fault := CheckoutExistingBranch(reachableAgain);
      } else if local.Some? {
        fault := CheckoutExistingBranch(reachableAgain);
      } else {
        local, head := Some(base), base;
        fault := None;
      }
      if fault.None? && head != base {
        fault := Some(Refused);
      }
    }

    /** `commit_paths`.  `named`: some path is given; `git`: what git answers to the commit. */
    method CommitPaths(named: bool, git: CommitAnswer) returns (sha: Result<Option<Commit>, Fault>)
      modifies this
      ensures sha.Err? <==> named && git.CommitFails?
      ensures sha.Err? ==> sha.error == Unavailable
      ensures sha.Ok? ==> (sha.value.Some? <==> named && git.Commits?)
      ensures State() == Committed(old(State()), if named && git.Commits? then Some(git.change) else None)
      ensures sha.Ok? && sha.value.Some? ==> sha.value.value == head && head == Child(old(head), git.change)
    {
      if !named {
        return Ok(None);
      }
      match git
      case CommitFails =>
        sha := Err(Unavailable);
      case NothingToCommit =>
        sha := Ok(None);
      case Commits(change) =>
        head := Child(head, change);
        local := Some(head);
        sha := Ok(Some(head));
    }

    /** `push_branch`: refused when it would rewrite history or the server declines it, failed on an
        outage, which may hide that the push went through. */
    method PushBranch(link: Link) returns (fault: Option<Fault>)
      modifies remote
      ensures remote.tip ==
                if (link == Up || link == AnswerLost) && FastForward(old(remote.tip), head) then Some(head)
                else old(remote.tip)
      ensures fault.None? <==> link == Up && FastForward(old(remote.tip), head)
      ensures fault == Some(Refused) <==> link == Declined || (link == Up && !FastForward(old(remote.tip), head))
      ensures State() == old(State())
    {
      if link == Down {
        return Some(Unavailable);
      }
      if link == Declined {
        return Some(Refused);
      }
      var accepted := remote.Receive(head);
      fault := if link == AnswerLost then Some(Unavailable) else if accepted then None else Some(Refused);
    }
  }
}
