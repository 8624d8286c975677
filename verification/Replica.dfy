/** hotstuff2.go as a transition function: what each handler does to one replica. Each handler is
    one atomic step; a `go` call becomes a pending task that fires as a step of its own. */
module Replica {
  import opened Types
  import opened ContextSpec
  import QuorumCert
  import Votes

  /** `sign` is PrivateKey.Sign on a digest. `gated` is false for the library as it is; true makes a
      leader's implicit vote pass the same gate as a vote in onProposal. */
  datatype Config = Config(me: uint16, validators: ValidatorSet, leader: uint32 -> uint16,
                           sign: seq<byte> -> seq<byte>, gated: bool)
  {
    predicate IsLeader(view: uint32) { leader(view) == me }

    function Quorum(): nat { validators.Quorum() }
  }

  datatype Msg =
    | Propose(view: uint32, sender: uint16, block: Block, justify: Option<QC>)
    | VoteMsg(view: uint32, sender: uint16, vote: Vote)
    | NewView(view: uint32, sender: uint16, highQC: Option<QC>)

  /** The pending `go` calls: advanceViewWithQC and propose. */
  datatype Task = Advance(view: uint32, qc: QC) | StartProposing

  /** One vote this replica signed: in onProposal, or implicitly as the leader that proposed the
      block; with the lock before and after, and the prune horizon at that time. */
  datatype Cast = Cast(view: uint32, node: Hash, viaProposal: bool, justify: Option<QC>,
                       lockBefore: Option<QC>, lockAfter: Option<QC>, horizon: nat)

  /** The votes that obey the voting rules: those cast in onProposal, or all when leaders are gated. */
  predicate Firm(gated: bool, c: Cast) { gated || c.viaProposal }

  /** One block this replica created as leader. */
  datatype Made = Made(view: uint32, block: Block, justify: Option<QC>)

  /** One commit, which is one call of Execute, with the certificates that justified it. */
  datatype CommitRecord = CommitRecord(block: Block, child: Block, childQC: QC, blockQC: Option<QC>)

  /** A replica: its context, what its storage holds, what it has broadcast, its pending tasks, and
      the history of what it committed, signed and created. */
  datatype Node = Node(ctx: Ctx, storedView: uint32, storedLock: Option<QC>, sent: seq<Msg>, tasks: seq<Task>,
                       commits: seq<CommitRecord>, casts: seq<Cast>, made: seq<Made>, horizon: nat)

  /** What the outside world answers during one step: the minimum-block-time check, Verify, the
      storage calls, CreateBlock's hash, NewVote's timestamp (or error), the clock, and the map
      iteration's choice among NEWVIEW certificates of equal view. */
  datatype Env = Env(accept: bool, verifyOk: bool, putView: bool, putBlock: bool, putQC: bool, putLock: bool,
                     created: Option<Hash>, signed: Option<uint64>, now: uint64, hint: Option<QC>)

  datatype Input = Deliver(msg: Msg) | Timeout(view: uint32) | Fire(index: nat)

  // ---- Small state changes ----

  /** SetView and PutView. */
  function EnterView(s: Node, view: uint32, env: Env): Node {
    s.(ctx := s.ctx.(view := view), storedView := if env.putView then view else s.storedView)
  }

  function Prune(s: Node, view: uint32): Node {
    s.(ctx := PruneVotes(s.ctx, view), horizon := if PruneBelow(view) > s.horizon then PruneBelow(view) else s.horizon)
  }

  function Send(s: Node, m: Msg): Node { s.(sent := s.sent + [m]) }

  predicate Raises(c: Ctx, qc: QC) { c.lockedQC.None? || qc.view > c.lockedQC.value.view }

  /** UpdateLockedQC, and PutHighestLockedQC when the lock moved. */
  function Lock(s: Node, qc: QC, env: Env): Node {
    s.(ctx := UpdateLockedQC(s.ctx, Some(qc)),
       storedLock := if Raises(s.ctx, qc) && env.putLock then Some(qc) else s.storedLock)
  }

  function DoCommit(s: Node, b: Block, qc: QC): Node
    requires qc.node in s.ctx.blocks
  {
    var blockQC := if b.hash in s.ctx.qcs then Some(s.ctx.qcs[b.hash]) else None;
    s.(ctx := Commit(s.ctx, b), commits := s.commits + [CommitRecord(b, s.ctx.blocks[qc.node], qc, blockQC)])
  }

  /** checkCommit */
  function CheckCommit(s: Node, b: Block, qc: QC): Node {
    if b.height in s.ctx.committed then s
    else if qc.node !in s.ctx.blocks then s
    else if s.ctx.blocks[qc.node].prevHash != b.hash then s
    else if b.hash !in s.ctx.qcs then
      if b.height == 0 then
        if qc.view != 1 then s else DoCommit(s, b, qc)
      else s
    else if qc.view != Succ32(s.ctx.qcs[b.hash].view) then s
    else DoCommit(s, b, qc)
  }

  // ---- Forming a certificate ----

  /** GetVotes: the stored votes in some order. */
  ghost function VotesList(m: map<uint16, Vote>): (r: seq<Vote>)
    ensures forall v :: v in r <==> v in m.Values
    ensures |r| == |m|
    decreases |m|
  {
    if m == map[] then []
    else
      var i :| i in m;
      var rest := m - {i};
      assert forall j :: j in m ==> j == i || (j in rest && rest[j] == m[j]);
      [m[i]] + VotesList(rest)
  }

  /** NewQC on the stored votes, then Validate; None where either returns an error. */
  ghost function FormQC(cfg: Config, view: uint32, node: Hash, m: map<uint16, Vote>): Option<QC> {
    var q := QuorumCert.Form(view, node, VotesList(m), cfg.Quorum(), QuorumCert.ED25519);
    if q.Some? && QuorumCert.Valid(q.value, cfg.validators) then q else None
  }

  /** What tryFormQCIfQuorum does with a validated certificate. */
  function UseQC(cfg: Config, s: Node, qc: QC, env: Env): Node {
    var s1 := s.(ctx := AddQC(s.ctx, qc));
    if !env.putQC then s1 else
    var s2 := Lock(s1.(ctx := UpdateHighQC(s1.ctx, Some(qc))), qc, env);
    var s3 :=
      if qc.node in s2.ctx.blocks && s2.ctx.blocks[qc.node].prevHash in s2.ctx.blocks
      then CheckCommit(s2, s2.ctx.blocks[s2.ctx.blocks[qc.node].prevHash], qc) else s2;
    if cfg.IsLeader(Succ32(qc.view)) then s3.(tasks := s3.tasks + [Advance(Succ32(qc.view), qc)]) else s3
  }

  /** tryFormQCIfQuorum, with the vote count AddVote returned. */
  ghost function TryFormQC(cfg: Config, s: Node, view: uint32, node: Hash, env: Env): Node {
    if |VotesFor(s.ctx, view, node)| < cfg.Quorum() then s
    else match FormQC(cfg, view, node, VotesFor(s.ctx, view, node))
      case None => s
      case Some(qc) => UseQC(cfg, s, qc, env)
  }

  // ---- Proposals ----

  /** View synchronization in onProposal. */
  function SyncToProposal(s: Node, view: uint32, justify: Option<QC>, env: Env): Node {
    if justify.Some? && view > s.ctx.view && justify.value.view >= ViewOrZero(s.ctx.highQC) then
      var s1 := EnterView(s, view, env);
      if justify.value.view > ViewOrZero(s.ctx.highQC)
      then s1.(ctx := AddQC(UpdateHighQC(s1.ctx, justify), justify.value))
      else s1
    else s
  }

  /** The guards of onProposal before the block is stored. */
  ghost predicate Considers(cfg: Config, s: Node, view: uint32, env: Env) {
    view == s.ctx.view && env.accept && !cfg.IsLeader(view) && !HasVoted(s.ctx, view, cfg.me) && env.verifyOk
  }

  function LockJustify(s: Node, justify: Option<QC>, env: Env): Node {
    if justify.Some? then Lock(s.(ctx := AddQC(s.ctx, justify.value)), justify.value, env) else s
  }

  /** NewVote */
  function SignVote(cfg: Config, view: uint32, node: Hash, time: uint64): Vote {
    Vote(view, node, cfg.me, cfg.sign(Votes.DigestOf(view, node, cfg.me, time)), time)
  }

  /** Signing, broadcasting and tracking the vote at the end of onProposal. */
  ghost function CastVote(cfg: Config, s: Node, view: uint32, block: Block, justify: Option<QC>,
                          lockBefore: Option<QC>, env: Env): Node
  {
    match env.signed
    case None => s
    case Some(time) =>
      var v := SignVote(cfg, view, block.hash, time);
      var c := Cast(view, block.hash, true, justify, lockBefore, s.ctx.lockedQC, s.horizon);
      var s1 := Send(s, VoteMsg(view, cfg.me, v)).(casts := s.casts + [c]);
      TryFormQC(cfg, s1.(ctx := AddVote(s1.ctx, v)), view, block.hash, env)
  }

  /** The rest of onProposal for a verified block: store it, apply the SafeNode rule, lock, vote. */
  ghost function VoteOn(cfg: Config, s: Node, view: uint32, block: Block, justify: Option<QC>, env: Env): Node {
    var s1 := s.(ctx := AddBlock(s.ctx, block));
    if !env.putBlock || !SafeToVote(s1.ctx, block, justify) then s1 else
    var s2 := LockJustify(s1, justify, env);
    if justify.Some? && Raises(s1.ctx, justify.value) && !env.putLock then s2 else
    CastVote(cfg, s2, view, block, justify, s1.ctx.lockedQC, env)
  }

  ghost function OnProposal(cfg: Config, s: Node, view: uint32, block: Block, justify: Option<QC>, env: Env): Node {
    var s1 := SyncToProposal(s, view, justify, env);
    if Considers(cfg, s1, view, env) then VoteOn(cfg, s1, view, block, justify, env) else s1
  }

  // ---- Votes ----

  const VOTE_WINDOW: nat := 60000

  /** GetByIndex and Vote.Verify both succeed. */
  predicate Admits(cfg: Config, v: Vote, now: uint64) {
    && QuorumCert.Authentic(v, cfg.validators)
    && (v.timestamp == 0 || (now as int - v.timestamp <= VOTE_WINDOW && v.timestamp as int - now <= VOTE_WINDOW))
  }

  ghost function OnVote(cfg: Config, s: Node, v: Vote, env: Env): Node {
    if !Admits(cfg, v, env.now) then s
    else TryFormQC(cfg, s.(ctx := AddVote(s.ctx, v)), v.view, v.node, env)
  }

  // ---- Proposing ----

  /** The leader's implicit vote for the block it proposed. */
  ghost function LeaderVote(cfg: Config, s: Node, view: uint32, node: Hash, justify: Option<QC>,
                            lockBefore: Option<QC>, env: Env): Node
  {
    match env.signed
    case None => s
    case Some(time) =>
      var v := SignVote(cfg, view, node, time);
      var c := Cast(view, node, false, justify, lockBefore, s.ctx.lockedQC, s.horizon);
      TryFormQC(cfg, s.(ctx := AddVote(s.ctx, v), casts := s.casts + [c]), view, node, env)
  }

  /** The variant in which that vote is gated: once per view, by the SafeNode rule, locking the
      certificate the block is built on. */
  ghost function GatedVote(cfg: Config, s: Node, view: uint32, block: Block, justify: Option<QC>, env: Env): Node {
    if HasVoted(s.ctx, view, cfg.me) || !SafeToVote(s.ctx, block, justify) then s else
    var s1 := LockJustify(s, justify, env);
    if justify.Some? && Raises(s.ctx, justify.value) && !env.putLock then s1
    else LeaderVote(cfg, s1, view, block.hash, justify, s.ctx.lockedQC, env)
  }

  /** The block a leader asks CreateBlock for: on top of `justify`, at height 1 when the parent is
      not stored. */
  function NewBlock(c: Ctx, justify: Option<QC>, h: Hash): (b: Block)
    ensures b.hash == h
  {
    var parent := if justify.Some? then justify.value.node else ZERO_HASH;
    Block(h, if justify.Some? && parent in c.blocks then Succ32(c.blocks[parent].height) else 1, parent)
  }

  /** The common part of propose and proposeWithNewViewQuorum: create a block on top of `justify`,
      broadcast it and vote for it. */
  ghost function ProposeOn(cfg: Config, s: Node, view: uint32, justify: Option<QC>, env: Env): Node {
    match env.created
    case None => s
    case Some(h) =>
      var block := NewBlock(s.ctx, justify, h);
      var s1 := s.(ctx := AddBlock(s.ctx, block), made := s.made + [Made(view, block, justify)]);
      if !env.putBlock then s1 else
      var s2 := Send(s1, Propose(view, cfg.me, block, justify));
      if cfg.gated then GatedVote(cfg, s2, view, block, justify, env)
      else LeaderVote(cfg, s2, view, h, justify, s2.ctx.lockedQC, env)
  }

  /** propose */
  ghost function DoPropose(cfg: Config, s: Node, env: Env): Node {
    if !cfg.IsLeader(s.ctx.view) then s else ProposeOn(cfg, s, s.ctx.view, s.ctx.highQC, env)
  }

  /** proposeWithNewViewQuorum */
  ghost function ProposeWithNewViewQuorum(cfg: Config, s: Node, view: uint32, env: Env): Node {
    if !cfg.IsLeader(view) || s.ctx.view != view then s else
    var best := if view in s.ctx.newviews then HighestQC(s.ctx.newviews[view], env.hint) else None;
    ProposeOn(cfg, s, view, if best.Some? then best else s.ctx.highQC, env)
  }

  // ---- View changes ----

  /** advanceViewWithQC */
  function AdvanceViewWithQC(cfg: Config, s: Node, next: uint32, env: Env): Node {
    var s1 := Prune(EnterView(s, next, env), next);
    if cfg.IsLeader(next) then s1.(tasks := s1.tasks + [StartProposing]) else s1
  }

  /** Broadcasting a NEWVIEW and counting it as one's own. */
  function AnnounceView(cfg: Config, s: Node, view: uint32): Node {
    Send(s, NewView(view, cfg.me, s.ctx.highQC)).(ctx := AddNewView(s.ctx, view, cfg.me, s.ctx.highQC))
  }

  /** advanceView */
  ghost function AdvanceView(cfg: Config, s: Node, next: uint32, env: Env): Node {
    var s1 := AnnounceView(cfg, Prune(EnterView(s, next, env), next), next);
    if cfg.IsLeader(next) && HasNewViewQuorum(s1.ctx, next, cfg.Quorum())
    then ProposeWithNewViewQuorum(cfg, s1, next, env) else s1
  }

  /** onViewTimeout */
  ghost function OnTimeout(cfg: Config, s: Node, view: uint32, env: Env): Node {
    if view != s.ctx.view then s else AdvanceView(cfg, s, Succ32(view), env)
  }

  /** Recording a NEWVIEW message, and its certificate if it carries one. */
  function TrackNewView(s: Node, view: uint32, sender: uint16, qc: Option<QC>): Node {
    var c := AddNewView(s.ctx, view, sender, qc);
    s.(ctx := if qc.Some? then AddQC(UpdateHighQC(c, qc), qc.value) else c)
  }

  /** Synchronizing forward to the view of a NEWVIEW whose certificate is at least as high. */
  function SyncForward(cfg: Config, s: Node, view: uint32, qc: Option<QC>, env: Env): Node {
    if view > s.ctx.view && qc.Some? && qc.value.view >= ViewOrZero(s.ctx.highQC)
    then AnnounceView(cfg, EnterView(s, view, env), view) else s
  }

  /** A leader that has moved on goes back to a view with a NEWVIEW quorum it has not voted in. */
  ghost function SyncBack(cfg: Config, s: Node, view: uint32, env: Env): Node {
    if view < s.ctx.view && HasNewViewQuorum(s.ctx, view, cfg.Quorum()) && !HasVoted(s.ctx, view, cfg.me)
    then EnterView(s, view, env) else s
  }

  ghost function OnNewView(cfg: Config, s: Node, view: uint32, sender: uint16, qc: Option<QC>, env: Env): Node {
    var s1 := SyncForward(cfg, TrackNewView(s, view, sender, qc), view, qc, env);
    if !cfg.IsLeader(view) then s1 else
    var s2 := SyncBack(cfg, s1, view, env);
    if view != s2.ctx.view || !HasNewViewQuorum(s2.ctx, view, cfg.Quorum()) then s2
    else ProposeWithNewViewQuorum(cfg, s2, view, env)
  }

  // ---- One step of a replica ----

  function DropTask(s: Node, i: nat): Node
    requires i < |s.tasks|
  {
    s.(tasks := s.tasks[..i] + s.tasks[i + 1..])
  }

  ghost function FireTask(cfg: Config, s: Node, i: nat, env: Env): Node
    requires i < |s.tasks|
  {
    match s.tasks[i]
    case Advance(view, _) => AdvanceViewWithQC(cfg, DropTask(s, i), view, env)
    case StartProposing => DoPropose(cfg, DropTask(s, i), env)
  }

  /** onReceive, the timeout callback, or a pending task. */
  ghost function Handle(cfg: Config, s: Node, input: Input, env: Env): Node {
    match input
    case Deliver(Propose(view, _, block, justify)) => OnProposal(cfg, s, view, block, justify, env)
    case Deliver(VoteMsg(_, _, vote)) => OnVote(cfg, s, vote, env)
    case Deliver(NewView(view, sender, qc)) => OnNewView(cfg, s, view, sender, qc, env)
    case Timeout(view) => OnTimeout(cfg, s, view, env)
    case Fire(i) => if i < |s.tasks| then FireTask(cfg, s, i, env) else s
  }

  // ---- Start and restart ----

  /** NewHotStuff2WithHooks, with what the storage returns: the last block, its certificate, the
      view and the locked QC, each None when the call fails or finds nothing. */
  function Rebuild(genesis: Option<Block>, genesisQC: Option<QC>, view: Option<uint32>, lock: Option<QC>): Ctx {
    var c := NewContext(genesis, genesisQC);
    UpdateLockedQC(if view.Some? then c.(view := view.value) else c, lock)
  }

  /** A freshly built replica after Start: the leader of the restored view has a proposal pending. */
  function Started(cfg: Config, genesis: Option<Block>, genesisQC: Option<QC>, view: uint32, lock: Option<QC>): Node {
    Node(Rebuild(genesis, genesisQC, Some(view), lock), view, lock, [],
         if cfg.IsLeader(view) then [StartProposing] else [], [], [], [], 0)
  }
}
