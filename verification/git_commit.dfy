/**
 * CommitToGit as a step machine: six REST calls in a fixed order, each
 * answered by an abstract reply, with the ids each call returns threaded
 * into the later calls. The run returns the trace of calls it issued and,
 * on failure, which step failed.
 */
module GitCommit {
  import opened Results
  import opened GoText
  import opened GitApi
  import opened Config

  datatype Step = GetRef | GetCommit | CreateBlob | CreateTree | CreateCommit | UpdateRef

  /** The fixed order of the transaction. */
  const Steps: seq<Step> := [GetRef, GetCommit, CreateBlob, CreateTree, CreateCommit, UpdateRef]

  const StepCount: nat := 6

  /** The HTTP method of each call, in issue order. */
  const MethodOrder: seq<string> := ["GET", "GET", "POST", "POST", "POST", "PATCH"]

  const TimestampPlaceholder: string := "{{.Timestamp}}"

  datatype GitError = MissingToken | StepFailed(step: Step, cause: string) {
    function Message(): string {
      match this
      case MissingToken => "git token not configured"
      case StepFailed(s, c) => StepContext(s) + c
    }
  }

  function StepContext(s: Step): string {
    match s
    case GetRef => "failed to get branch ref: "
    case GetCommit => "failed to get commit tree: "
    case CreateBlob => "failed to create blob: "
    case CreateTree => "failed to create tree: "
    case CreateCommit => "failed to create commit: "
    case UpdateRef => "failed to update branch ref: "
  }

  /** One reply per step, in step order. */
  datatype Replies = Replies(ref: ApiReply, commit: ApiReply, blob: ApiReply,
                             tree: ApiReply, newCommit: ApiReply, update: ApiReply)

  /**
   * What each step makes of its reply: every step but the last decodes an id
   * from the body; the branch update passes no target.
   */
  function Outcomes(replies: Replies): (outs: seq<Result<string, string>>)
    ensures |outs| == StepCount
    ensures forall k :: 0 <= k < StepCount && outs[k].Ok? ==> IsSuccessReply(k, replies)
    ensures outs[StepCount - 1].Ok? <==> IsSuccessReply(StepCount - 1, replies)
  {
    [CallOutcome(replies.ref, true), CallOutcome(replies.commit, true), CallOutcome(replies.blob, true),
     CallOutcome(replies.tree, true), CallOutcome(replies.newCommit, true),
     CallOutcome(replies.update, false)]
  }

  /** The reply to step `k` arrived with a 2xx status. */
  predicate IsSuccessReply(k: nat, replies: Replies)
    requires k < StepCount
  {
    var reply := [replies.ref, replies.commit, replies.blob, replies.tree, replies.newCommit,
                  replies.update][k];
    reply.Reply? && IsSuccessStatus(reply.status)
  }

  datatype CommitRun = CommitRun(calls: seq<ApiRequest>, failure: Option<GitError>)

  function RefUrl(cfg: GitConfig): string {
    cfg.apiUrl + "/repos/" + cfg.owner + "/" + cfg.repo + "/git/refs/heads/" + cfg.branch
  }

  function CommitUrl(cfg: GitConfig, sha: string): string {
    cfg.apiUrl + "/repos/" + cfg.owner + "/" + cfg.repo + "/git/commits/" + sha
  }

  function ObjectsUrl(cfg: GitConfig, kind: string): string {
    cfg.apiUrl + "/repos/" + cfg.owner + "/" + cfg.repo + "/git/" + kind
  }

  /**
   * The request of the next step, `|ids|`, built from the ids the earlier
   * steps read: `ids[0]` the branch's commit, `ids[1]` that commit's tree,
   * `ids[2]` the new blob, `ids[3]` the new tree, `ids[4]` the new commit.
   */
  function RequestAt(cfg: GitConfig, content64: string, message: string, ids: seq<string>)
    : (r: ApiRequest)
    requires |ids| < StepCount
    ensures r.httpMethod == MethodOrder[|ids|]
    ensures r.payload.None? <==> |ids| < 2
    ensures r.headers == RequestHeaders(cfg.token, 2 <= |ids|)
  {
    match |ids|
    case 0 => MakeRequest("GET", RefUrl(cfg), cfg.token, None)
    case 1 => MakeRequest("GET", CommitUrl(cfg, ids[0]), cfg.token, None)
    case 2 =>
      MakeRequest("POST", ObjectsUrl(cfg, "blobs"), cfg.token, Some(BlobPayload(content64, "base64")))
    case 3 =>
      MakeRequest("POST", ObjectsUrl(cfg, "trees"), cfg.token,
        Some(TreePayload(ids[1], [TreeEntry(cfg.outputPath, "100644", "blob", ids[2])])))
    case 4 =>
      MakeRequest("POST", ObjectsUrl(cfg, "commits"), cfg.token,
        Some(CommitPayload(message, ids[3], [ids[0]])))
    case _ =>
      MakeRequest("PATCH", RefUrl(cfg), cfg.token, Some(RefUpdatePayload(ids[4], false)))
  }

  /**
   * Run the transaction from step `|ids|`, given each step's outcome and the
   * ids read so far; the first failing step ends the run.
   */
  function Run(cfg: GitConfig, content64: string, message: string,
               outs: seq<Result<string, string>>, ids: seq<string>): (r: CommitRun)
    requires |outs| == StepCount && |ids| <= StepCount
    ensures |r.calls| <= StepCount - |ids|
    ensures r.failure.Some? ==> r.failure.value.StepFailed? && 0 < |r.calls|
    ensures r.failure.None? ==> |r.calls| == StepCount - |ids|
    decreases StepCount - |ids|
  {
    var k := |ids|;
    if k == StepCount then CommitRun([], None)
    else
      var req := RequestAt(cfg, content64, message, ids);
      match outs[k]
      case Err(cause) => CommitRun([req], Some(StepFailed(Steps[k], cause)))
      case Ok(id) =>
        var rest := Run(cfg, content64, message, outs, ids + [id]);
        CommitRun([req] + rest.calls, rest.failure)
  }

  /** The commit message: every placeholder replaced by the timestamp. */
  function CommitMessage(template: string, timestamp: string): (msg: string)
    ensures !Contains(template, TimestampPlaceholder) ==> msg == template
  {
    assert !Contains(template, TimestampPlaceholder) ==>
             ReplaceAll(template, TimestampPlaceholder, timestamp) == template by {
      if !Contains(template, TimestampPlaceholder) {
        ReplaceAllAbsent(template, TimestampPlaceholder, timestamp);
      }
    }
    ReplaceAll(template, TimestampPlaceholder, timestamp)
  }

  /**
   * CommitToGit. The wall clock and base64 encoding are parameters: the
   * timestamp as already formatted, and the encoder as a function.
   */
  function CommitToGit(cfg: GitConfig, content: Bytes, timestamp: string,
                       base64: Bytes -> string, replies: Replies): (r: CommitRun)
    ensures cfg.token == "" ==> r == CommitRun([], Some(MissingToken))
    ensures r.failure == Some(MissingToken) ==> cfg.token == ""
    ensures |r.calls| <= StepCount
    ensures forall i :: 0 <= i < |r.calls| ==> r.calls[i].httpMethod == MethodOrder[i]
    ensures r.failure.None? <==>
              cfg.token != "" && forall i :: 0 <= i < StepCount ==> Outcomes(replies)[i].Ok?
    ensures r.failure.Some? && r.failure.value.StepFailed? ==>
              && 0 < |r.calls|
              && r.failure.value.step == Steps[|r.calls| - 1]
              && Outcomes(replies)[|r.calls| - 1] == Err(r.failure.value.cause)
              && forall i :: 0 <= i < |r.calls| - 1 ==> Outcomes(replies)[i].Ok?
    ensures r.failure.Some? && r.failure.value.StepFailed? ==>
              r.failure.value.Message()
              == StepContext(Steps[|r.calls| - 1]) + Outcomes(replies)[|r.calls| - 1].error
    ensures r.failure.None? ==> |r.calls| == StepCount
  {
    if cfg.token == "" then CommitRun([], Some(MissingToken))
    else
      var c64, msg, outs := base64(content), CommitMessage(cfg.commitMessage, timestamp), Outcomes(replies);
      RunMethodsFromStart(cfg, c64, msg, outs);
      RunSucceeds(cfg, c64, msg, outs, []);
      RunAborts(cfg, c64, msg, outs, []);
      Run(cfg, c64, msg, outs, [])
  }

  /** Calls from step `|ids|` on follow the fixed method order. */
  lemma {:induction false} RunMethods(cfg: GitConfig, content64: string, message: string,
                                      outs: seq<Result<string, string>>, ids: seq<string>)
    requires |outs| == StepCount && |ids| <= StepCount
    ensures var r := Run(cfg, content64, message, outs, ids);
      forall i :: 0 <= i < |r.calls| ==> r.calls[i].httpMethod == MethodOrder[|ids| + i]
    decreases StepCount - |ids|
  {
    if |ids| < StepCount {
      if outs[|ids|].Ok? {
        var ids' := ids + [outs[|ids|].value];
        RunMethods(cfg, content64, message, outs, ids');
        assert Run(cfg, content64, message, outs, ids).calls
               == [RequestAt(cfg, content64, message, ids)] + Run(cfg, content64, message, outs, ids').calls;
      }
    }
  }

  /** A whole run issues its calls in the fixed method order. */
  lemma RunMethodsFromStart(cfg: GitConfig, content64: string, message: string,
                            outs: seq<Result<string, string>>)
    requires |outs| == StepCount
    ensures var r := Run(cfg, content64, message, outs, []);
      forall i :: 0 <= i < |r.calls| ==> r.calls[i].httpMethod == MethodOrder[i]
  {
    var start: seq<string> := [];
    RunMethods(cfg, content64, message, outs, start);
    assert |start| == 0;
  }

  /** A run from step `|ids|` succeeds exactly when every remaining step succeeds, and then issues them all. */
  lemma {:induction false} RunSucceeds(cfg: GitConfig, content64: string, message: string,
                                       outs: seq<Result<string, string>>, ids: seq<string>)
    requires |outs| == StepCount && |ids| <= StepCount
    ensures var r := Run(cfg, content64, message, outs, ids);
      && (r.failure.None? <==> forall i :: |ids| <= i < StepCount ==> outs[i].Ok?)
      && (r.failure.None? ==> |r.calls| == StepCount - |ids|)
    decreases StepCount - |ids|
  {
    if |ids| < StepCount && outs[|ids|].Ok? {
      RunSucceeds(cfg, content64, message, outs, ids + [outs[|ids|].value]);
    }
  }

  /** A failed run stops at the first failing step: its call is the last one issued. */
  lemma {:induction false} RunAborts(cfg: GitConfig, content64: string, message: string,
                                     outs: seq<Result<string, string>>, ids: seq<string>)
    requires |outs| == StepCount && |ids| <= StepCount
    ensures var r := Run(cfg, content64, message, outs, ids);
      r.failure.Some? ==>
        && r.failure.value.StepFailed?
        && 0 < |r.calls|
        && r.failure.value.step == Steps[|ids| + |r.calls| - 1]
        && outs[|ids| + |r.calls| - 1] == Err(r.failure.value.cause)
        && forall i :: |ids| <= i < |ids| + |r.calls| - 1 ==> outs[i].Ok?
    decreases StepCount - |ids|
  {
    if |ids| < StepCount && outs[|ids|].Ok? {
      var ids' := ids + [outs[|ids|].value];
      RunAborts(cfg, content64, message, outs, ids');
      var r, r' := Run(cfg, content64, message, outs, ids), Run(cfg, content64, message, outs, ids');
      assert |r.calls| == 1 + |r'.calls| && r.failure == r'.failure;
    }
  }

  /** Every id the outcomes supply, as if all steps had run; a failed step supplies "". */
  function IdsOf(outs: seq<Result<string, string>>): (ids: seq<string>)
    ensures |ids| == |outs|
    ensures forall k :: 0 <= k < |outs| && outs[k].Ok? ==> ids[k] == outs[k].value
  {
    seq(|outs|, k requires 0 <= k < |outs| => GetOrEmpty(outs[k]))
  }

  /**
   * Reference definition of the transaction: the six calls a fully
   * successful run issues, call `k` built from the first `k` ids.
   */
  function Plan(cfg: GitConfig, content64: string, message: string,
                outs: seq<Result<string, string>>): (p: seq<ApiRequest>)
    requires |outs| == StepCount
    ensures |p| == StepCount
  {
    seq(StepCount, k requires 0 <= k < StepCount => RequestAt(cfg, content64, message, IdsOf(outs)[..k]))
  }

  /** The stepwise run and the reference plan agree on every call the run issues. */
  lemma {:induction false} RunFollowsPlan(cfg: GitConfig, content64: string, message: string,
                                          outs: seq<Result<string, string>>, ids: seq<string>)
    requires |outs| == StepCount && |ids| <= StepCount
    requires ids == IdsOf(outs)[..|ids|]
    ensures var r := Run(cfg, content64, message, outs, ids);
      && |ids| + |r.calls| <= StepCount
      && r.calls == Plan(cfg, content64, message, outs)[|ids| .. |ids| + |r.calls|]
    decreases StepCount - |ids|
  {
    var k := |ids|;
    if k < StepCount {
      var plan := Plan(cfg, content64, message, outs);
      var req := RequestAt(cfg, content64, message, ids);
      PlanAt(cfg, content64, message, outs, k);
      assert plan[k] == req;
      if outs[k].Ok? {
        var ids' := ids + [outs[k].value];
        assert ids' == IdsOf(outs)[..k + 1];
        var rest := Run(cfg, content64, message, outs, ids');
        RunFollowsPlan(cfg, content64, message, outs, ids');
        SliceCons(plan, k, |rest.calls|);
      } else {
        SliceCons(plan, k, 0);
      }
    }
  }

  /** A slice is its first element followed by the rest of the slice. */
  lemma SliceCons<T>(s: seq<T>, k: nat, n: nat)
    requires k + 1 + n <= |s|
    ensures s[k .. k + 1 + n] == [s[k]] + s[k + 1 .. k + 1 + n]
  {
  }

  /** The planned call at step `k` is built from the ids of the steps before it. */
  lemma PlanAt(cfg: GitConfig, content64: string, message: string,
               outs: seq<Result<string, string>>, k: nat)
    requires |outs| == StepCount && k < StepCount
    ensures Plan(cfg, content64, message, outs)[k] == RequestAt(cfg, content64, message, IdsOf(outs)[..k])
  {
  }

  /** The reference plan, call by call: which ids each call carries. */
  lemma PlanCalls(cfg: GitConfig, content64: string, message: string, outs: seq<Result<string, string>>)
    requires |outs| == StepCount
    ensures var p, ids := Plan(cfg, content64, message, outs), IdsOf(outs);
      && p[0].url == RefUrl(cfg) && p[0].payload.None?
      && p[1].url == CommitUrl(cfg, ids[0]) && p[1].payload.None?
      && p[2].url == ObjectsUrl(cfg, "blobs")
      && p[2].payload == Some(BlobPayload(content64, "base64"))
      && p[3].url == ObjectsUrl(cfg, "trees")
      && p[3].payload == Some(TreePayload(ids[1], [TreeEntry(cfg.outputPath, "100644", "blob", ids[2])]))
      && p[4].url == ObjectsUrl(cfg, "commits")
      && p[4].payload == Some(CommitPayload(message, ids[3], [ids[0]]))
      && p[5].url == RefUrl(cfg)
      && p[5].payload == Some(RefUpdatePayload(ids[4], false))
  {
    var p, ids := Plan(cfg, content64, message, outs), IdsOf(outs);
    assert p[1] == RequestAt(cfg, content64, message, ids[..1]);
    assert p[3] == RequestAt(cfg, content64, message, ids[..3]);
    assert p[4] == RequestAt(cfg, content64, message, ids[..4]);
    assert p[5] == RequestAt(cfg, content64, message, ids[..5]);
  }

  /** Every call CommitToGit issues is the matching call of the reference plan. */
  lemma CommitFollowsPlan(cfg: GitConfig, content: Bytes, timestamp: string,
                          base64: Bytes -> string, replies: Replies)
    ensures var r := CommitToGit(cfg, content, timestamp, base64, replies);
      r.calls == Plan(cfg, base64(content), CommitMessage(cfg.commitMessage, timestamp),
                      Outcomes(replies))[..|r.calls|]
  {
    if cfg.token != "" {
      var outs := Outcomes(replies);
      assert [] == IdsOf(outs)[..0];
      RunFollowsPlan(cfg, base64(content), CommitMessage(cfg.commitMessage, timestamp), outs, []);
    }
  }

  /** Call `k` of a commit is the plan's call `k`, and every earlier step succeeded. */
  lemma CommitCall(cfg: GitConfig, content: Bytes, timestamp: string,
                   base64: Bytes -> string, replies: Replies, k: nat)
    requires k < |CommitToGit(cfg, content, timestamp, base64, replies).calls|
    ensures CommitToGit(cfg, content, timestamp, base64, replies).calls[k]
            == Plan(cfg, base64(content), CommitMessage(cfg.commitMessage, timestamp), Outcomes(replies))[k]
    ensures forall j :: 0 <= j < k ==> Outcomes(replies)[j].Ok? && IdsOf(Outcomes(replies))[j] == Outcomes(replies)[j].value
  {
    var r := CommitToGit(cfg, content, timestamp, base64, replies);
    var outs := Outcomes(replies);
    CommitFollowsPlan(cfg, content, timestamp, base64, replies);
    assert cfg.token != "";
    assert forall j :: 0 <= j < k ==> outs[j].Ok? by {
      if r.failure.Some? {
        assert r.failure.value.StepFailed?;
      }
    }
  }

  /**
   * The commit read at step 1 is the one fetched at step 2 and is the sole
   * parent of the commit created at step 5, whose tree is step 4's tree.
   */
  lemma ParentIsBranchHead(cfg: GitConfig, content: Bytes, timestamp: string,
                           base64: Bytes -> string, replies: Replies)
    ensures var r := CommitToGit(cfg, content, timestamp, base64, replies);
      var outs := Outcomes(replies);
      && (|r.calls| >= 2 ==>
            && outs[0].Ok?
            && r.calls[1].url == CommitUrl(cfg, outs[0].value))
      && (|r.calls| >= 5 ==>
            && outs[0].Ok? && outs[3].Ok?
            && r.calls[4].payload == Some(CommitPayload(
                 CommitMessage(cfg.commitMessage, timestamp), outs[3].value, [outs[0].value])))
  {
    var r := CommitToGit(cfg, content, timestamp, base64, replies);
    PlanCalls(cfg, base64(content), CommitMessage(cfg.commitMessage, timestamp), Outcomes(replies));
    if |r.calls| >= 2 {
      CommitCall(cfg, content, timestamp, base64, replies, 1);
    }
    if |r.calls| >= 5 {
      CommitCall(cfg, content, timestamp, base64, replies, 4);
    }
  }

  /**
   * The blob carries the base64 content; the new tree is based on the
   * fetched commit's tree with one regular-file entry for the output path
   * pointing at the new blob.
   */
  lemma TreeReplacesOnePath(cfg: GitConfig, content: Bytes, timestamp: string,
                            base64: Bytes -> string, replies: Replies)
    ensures var r := CommitToGit(cfg, content, timestamp, base64, replies);
      var outs := Outcomes(replies);
      && (|r.calls| >= 3 ==> r.calls[2].payload == Some(BlobPayload(base64(content), "base64")))
      && (|r.calls| >= 4 ==>
            && outs[1].Ok? && outs[2].Ok?
            && r.calls[3].payload == Some(TreePayload(
                 outs[1].value, [TreeEntry(cfg.outputPath, "100644", "blob", outs[2].value)])))
  {
    var r := CommitToGit(cfg, content, timestamp, base64, replies);
    PlanCalls(cfg, base64(content), CommitMessage(cfg.commitMessage, timestamp), Outcomes(replies));
    if |r.calls| >= 3 {
      CommitCall(cfg, content, timestamp, base64, replies, 2);
    }
    if |r.calls| >= 4 {
      CommitCall(cfg, content, timestamp, base64, replies, 3);
    }
  }

  /**
   * The branch is moved only after steps 1 to 5 all succeeded, to the new
   * commit, without forcing.
   */
  lemma RefUpdateLast(cfg: GitConfig, content: Bytes, timestamp: string,
                      base64: Bytes -> string, replies: Replies)
    ensures var r := CommitToGit(cfg, content, timestamp, base64, replies);
      (exists i :: 0 <= i < |r.calls| && r.calls[i].httpMethod == "PATCH") ==>
        && |r.calls| == StepCount
        && (forall i :: 0 <= i < StepCount - 1 ==> Outcomes(replies)[i].Ok?)
        && r.calls[5].url == RefUrl(cfg)
        && r.calls[5].payload == Some(RefUpdatePayload(Outcomes(replies)[4].value, false))
  {
    var r := CommitToGit(cfg, content, timestamp, base64, replies);
    if exists i :: 0 <= i < |r.calls| && r.calls[i].httpMethod == "PATCH" {
      var i :| 0 <= i < |r.calls| && r.calls[i].httpMethod == "PATCH";
      assert MethodOrder[i] == "PATCH";
      assert i == 5;
      PlanCalls(cfg, base64(content), CommitMessage(cfg.commitMessage, timestamp), Outcomes(replies));
      CommitCall(cfg, content, timestamp, base64, replies, 5);
    }
  }

  /** Every call carries the configured token as a bearer credential. */
  lemma CallsAuthorized(cfg: GitConfig, content: Bytes, timestamp: string,
                        base64: Bytes -> string, replies: Replies)
    ensures var r := CommitToGit(cfg, content, timestamp, base64, replies);
      forall i :: 0 <= i < |r.calls| ==>
        |r.calls[i].headers| > 0 && r.calls[i].headers[0] == ("Authorization", "Bearer " + cfg.token)
  {
    var r := CommitToGit(cfg, content, timestamp, base64, replies);
    CommitFollowsPlan(cfg, content, timestamp, base64, replies);
    PlanCalls(cfg, base64(content), CommitMessage(cfg.commitMessage, timestamp), Outcomes(replies));
    forall i | 0 <= i < |r.calls|
      ensures |r.calls[i].headers| > 0 && r.calls[i].headers[0] == ("Authorization", "Bearer " + cfg.token)
    {
      var ids := IdsOf(Outcomes(replies))[..i];
      assert r.calls[i] == RequestAt(cfg, base64(content), CommitMessage(cfg.commitMessage, timestamp), ids);
    }
  }

  /**
   * A template with one placeholder, such as the default "Update at
   * {{.Timestamp}}", gets the timestamp in its place and is otherwise kept.
   */
  lemma MessageFillsPlaceholder(prefix: string, timestamp: string, suffix: string)
    requires !Contains(prefix, TimestampPlaceholder)
    requires !Contains(suffix, TimestampPlaceholder)
    ensures CommitMessage(prefix + TimestampPlaceholder + suffix, timestamp) == prefix + timestamp + suffix
  {
    MessageFillsEvery([prefix, suffix], timestamp);
    assert JoinWith([prefix, suffix], TimestampPlaceholder) == prefix + TimestampPlaceholder + suffix;
    assert JoinWith([prefix, suffix], timestamp) == prefix + timestamp + suffix;
  }

  /**
   * Every placeholder is replaced: a template cut at its placeholders into
   * pieces that hold none gives those pieces joined by the timestamp.
   */
  lemma {:induction false} MessageFillsEvery(pieces: seq<string>, timestamp: string)
    requires |pieces| > 0
    requires forall i :: 0 <= i < |pieces| ==> !Contains(pieces[i], TimestampPlaceholder)
    ensures CommitMessage(JoinWith(pieces, TimestampPlaceholder), timestamp) == JoinWith(pieces, timestamp)
    decreases |pieces|
  {
    var p := TimestampPlaceholder;
    if |pieces| == 1 {
      ReplaceAllAbsent(pieces[0], p, timestamp);
    } else {
      var rest := JoinWith(pieces[1..], p);
      PlaceholderNotStarted(pieces[0], rest);
      ReplaceAllFirst(pieces[0], p, timestamp, rest);
      MessageFillsEvery(pieces[1..], timestamp);
    }
  }

  /** Before the first placeholder of `x + placeholder + y`, no placeholder starts. */
  lemma PlaceholderNotStarted(x: string, y: string)
    requires !Contains(x, TimestampPlaceholder)
    ensures forall i :: 0 <= i < |x| ==> !StartsWith((x + TimestampPlaceholder + y)[i..], TimestampPlaceholder)
  {
    var p := TimestampPlaceholder;
    var s := x + p + y;
    forall i | 0 <= i < |x| ensures !StartsWith(s[i..], p) {
      if i + |p| <= |x| {
        assert s[i..][..|p|] == x[i..][..|p|];
        assert !StartsWith(x[i..], p);
      } else {
        var k := |x| - i;
        assert s[|x|..|x| + |p|] == p;
        assert s[i..][k..|p|] == s[|x|..|x| + |p| - k];
        assert s[i..][k..|p|] == p[..|p| - k];
        PlaceholderBorderFree(k);
      }
    }
  }

  /** No proper suffix of the placeholder is also a prefix of it, so occurrences never overlap. */
  lemma PlaceholderBorderFree(k: int)
    requires 0 < k < |TimestampPlaceholder|
    ensures TimestampPlaceholder[k..] != TimestampPlaceholder[..|TimestampPlaceholder| - k]
  {
    var p := TimestampPlaceholder;
    if k == 1 {
      assert p[k..][1] == '.' && p[..|p| - k][1] == '{';
    } else {
      assert p[..|p| - k][0] == '{';
      assert p[k] != '{';
    }
  }
}
