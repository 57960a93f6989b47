/** A person's scheduled tasks for one bot: draft, confirmation, and the check before each run. */
module Schedules {
  import opened Wrappers

  type User = string
  type Chat = string
  type JobId = nat

  /** Seconds. */
  type Time = int

  const MAX_ACTIVE: nat := 10
  const MAX_PENDING: nat := 5
  const MIN_INTERVAL: int := 3600
  const ONCE_MIN_LEAD: int := 60
  const ONCE_MAX_LEAD: int := 30 * 86400
  const HORIZON: int := 366 * 86400
  const INTERVAL_SAMPLES: nat := 60
  const NAME_MAX: nat := 40
  const PROMPT_MAX: nat := 8000
  const MAX_RECIPIENTS: nat := 20
  const MAX_CHATS: nat := 10

  datatype Code = InvalidSchedule | IntervalTooShort | RunAtOutOfRange | InvalidExpiry | InvalidPrecheck
    | InvalidRecipient | TooManyRecipients | RecipientUnreachable | ChatNotAllowed | NoRecipient
    | PrivateChatRequired | TooManySchedules | TooManyPending | NotFound | Changed | StillBusy | Forbidden

  datatype Result<T> = Ok(value: T) | Err(code: Code)

  // ---- when ----

  datatype Schedule = Recurring(cron: string) | Once(at: Time)

  datatype Plan = Plan(schedule: Schedule, next: Time)

  /** `fires`: the times at which the cron expression triggers after `now`, as far as
      there are any; an expression that is no good has none. */
  function Sampled(fires: seq<Time>, now: Time, i: nat): Option<Code>
    requires i <= INTERVAL_SAMPLES
    decreases INTERVAL_SAMPLES - i
  {
    if i == INTERVAL_SAMPLES then None
    else if i >= |fires| then Some(InvalidSchedule)
    else if i > 0 && fires[i] - fires[i - 1] < MIN_INTERVAL then Some(IntervalTooShort)
    else if fires[i] - now > HORIZON then None
    else Sampled(fires, now, i + 1)
  }

  function Planned(cron: string, runAt: Option<Time>, fires: seq<Time>, now: Time): Result<Plan> {
    if cron != "" then
      var bad := Sampled(fires, now, 0);
      if bad.Some? then Err(bad.value)
      else if fires == [] then Err(InvalidSchedule)
      else Ok(Plan(Recurring(cron), fires[0]))
    else if runAt.None? then Err(InvalidSchedule)
    else if now + ONCE_MIN_LEAD <= runAt.value <= now + ONCE_MAX_LEAD then Ok(Plan(Once(runAt.value), runAt.value))
    else Err(RunAtOutOfRange)
  }

  /** The first `n` triggers are what is looked at: up to the first one more than a
      year away, and 60 at most. */
  ghost predicate Window(fires: seq<Time>, now: Time, n: nat) {
    && 0 < n <= INTERVAL_SAMPLES && n <= |fires|
    && (forall i :: 0 <= i < n - 1 ==> fires[i] - now <= HORIZON)
    && (n == INTERVAL_SAMPLES || fires[n - 1] - now > HORIZON)
  }

  ghost predicate Spaced(fires: seq<Time>, n: nat)
    requires n <= |fires|
  {
    forall i :: 0 < i < n ==> fires[i] - fires[i - 1] >= MIN_INTERVAL
  }

  /** Trigger `k` follows too soon, and is the first that does. */
  ghost predicate TooSoon(fires: seq<Time>, now: Time, k: nat) {
    && 0 < k < INTERVAL_SAMPLES && k < |fires| && fires[k] - fires[k - 1] < MIN_INTERVAL
    && Spaced(fires, k) && forall i :: 0 <= i < k ==> fires[i] - now <= HORIZON
  }

  lemma {:induction false} SampledFrom(fires: seq<Time>, now: Time, i: nat)
    requires i <= INTERVAL_SAMPLES && i <= |fires|
    requires forall k :: 0 <= k < i ==> fires[k] - now <= HORIZON
    requires Spaced(fires, i)
    ensures i < INTERVAL_SAMPLES ==>
              (Sampled(fires, now, i).None? <==> exists n :: n > i && Window(fires, now, n) && Spaced(fires, n))
    ensures Sampled(fires, now, i) == Some(IntervalTooShort) <==> exists k :: TooSoon(fires, now, k)
    ensures Sampled(fires, now, i) in {None, Some(IntervalTooShort), Some(InvalidSchedule)}
    decreases INTERVAL_SAMPLES - i
  {
    if i < INTERVAL_SAMPLES && i < |fires| {
      if i > 0 && fires[i] - fires[i - 1] < MIN_INTERVAL {
        assert TooSoon(fires, now, i);
      } else if fires[i] - now > HORIZON || i + 1 == INTERVAL_SAMPLES {
        assert Window(fires, now, i + 1) && Spaced(fires, i + 1);
      } else {
        SampledFrom(fires, now, i + 1);
        assert !Window(fires, now, i + 1);
      }
    }
  }

  /** A recurring schedule whose triggers in the window are an hour apart, or one time
      between a minute and thirty days away. */
  ghost predicate GoodTime(cron: string, runAt: Option<Time>, fires: seq<Time>, now: Time) {
    if cron != "" then exists n :: Window(fires, now, n) && Spaced(fires, n)
    else runAt.Some? && 60 <= runAt.value - now <= 30 * 24 * 3600
  }

  /** When a plan is accepted, what it says, and what is wrong with it otherwise. */
  lemma PlanAccepted(cron: string, runAt: Option<Time>, fires: seq<Time>, now: Time)
    ensures Planned(cron, runAt, fires, now).Ok? <==> GoodTime(cron, runAt, fires, now)
    ensures GoodTime(cron, runAt, fires, now) ==>
              var plan := Planned(cron, runAt, fires, now).value;
              if cron != "" then plan.schedule == Recurring(cron) && [plan.next] <= fires
              else plan.schedule == Once(plan.next) && runAt == Some(plan.next)
    ensures !GoodTime(cron, runAt, fires, now) ==>
              var code := Planned(cron, runAt, fires, now).code;
              code == if cron != "" && exists k :: TooSoon(fires, now, k) then IntervalTooShort
                      else if cron == "" && runAt.Some? then RunAtOutOfRange
                      else InvalidSchedule
  {
    SampledFrom(fires, now, 0);
  }

  /** `plan`. */
  method MakePlan(cron: string, runAt: Option<Time>, fires: seq<Time>, now: Time) returns (plan: Result<Plan>)
    ensures plan == Planned(cron, runAt, fires, now)
  {
    if cron != "" {
      var i := 0;
      while i < INTERVAL_SAMPLES
        invariant 0 <= i <= INTERVAL_SAMPLES && i <= |fires|
        invariant Sampled(fires, now, i) == Sampled(fires, now, 0)
      {
        if i >= |fires| {
          return Err(InvalidSchedule);
        }
        if i > 0 && fires[i] - fires[i - 1] < MIN_INTERVAL {
          return Err(IntervalTooShort);
        }
        if fires[i] - now > HORIZON {
          break;
        }
        i := i + 1;
      }
      return Ok(Plan(Recurring(cron), fires[0]));
    }
    if runAt.None? {
      return Err(InvalidSchedule);
    }
    if !(now + ONCE_MIN_LEAD <= runAt.value <= now + ONCE_MAX_LEAD) {
      return Err(RunAtOutOfRange);
    }
    plan := Ok(Plan(Once(runAt.value), runAt.value));
  }

  predicate ExpiryFits(expires: Option<Time>, plan: Plan, now: Time) {
    expires.Some? ==> expires.value > now && (plan.schedule.Once? ==> expires.value > plan.schedule.at)
  }

  // ---- for whom ----

  /** What the database knows: who may use the bot, who has a private chat with it,
      in which groups each has spoken to it, whom it can reach. */
  datatype Facts = Facts(allowed: set<User>, reached: map<User, Chat>, groups: map<User, set<Chat>>,
                         reachable: set<User>)

  function GroupsOf(f: Facts, user: User): set<Chat> {
    if user in f.groups then f.groups[user] else {}
  }

  /** A recipient as written, and the user it names, if any. */
  datatype Raw = Raw(text: string, user: Option<User>)

  function Canonical(users: seq<User>): seq<Raw> {
    seq(|users|, i requires 0 <= i < |users| => Raw(users[i], Some(users[i])))
  }

  /** The first of each, in order. */
  function Unique<T(==)>(s: seq<T>): seq<T> {
    if s == [] then []
    else
      var before := Unique(s[..|s| - 1]);
      if s[|s| - 1] in before then before else before + [s[|s| - 1]]
  }

  predicate Distinct<T(==)>(s: seq<T>) {
    forall i, j :: 0 <= i < j < |s| ==> s[i] != s[j]
  }

  lemma {:induction false} UniqueExactly<T>(s: seq<T>)
    ensures Distinct(Unique(s))
    ensures forall x :: x in Unique(s) <==> x in s
    ensures Distinct(s) ==> Unique(s) == s
  {
    if s != [] {
      var n := |s| - 1;
      UniqueExactly(s[..n]);
      assert s == s[..n] + [s[n]];
    }
  }

  /** What comes later moves nothing that came before. */
  lemma {:induction false} UniqueGrows<T>(s: seq<T>, n: nat)
    requires n <= |s|
    ensures Unique(s[..n]) <= Unique(s)
    decreases |s| - n
  {
    if n == |s| {
      assert s[..n] == s;
    } else {
      UniqueGrows(s, n + 1);
      assert s[..n + 1][..n] == s[..n];
    }
  }

  lemma {:induction false} UniqueSize<T>(s: seq<T>)
    ensures |Unique(s)| == |set x | x in s|
  {
    if s != [] {
      var n := |s| - 1;
      var all, before := (set x | x in s), set x | x in s[..n];
      UniqueSize(s[..n]);
      assert s[n] in Unique(s[..n]) <==> s[n] in before by {
        UniqueExactly(s[..n]);
      }
      assert all == before + {s[n]} by {
        assert s == s[..n] + [s[n]];
      }
    }
  }

  function Others(raws: seq<Raw>, owner: User): seq<User> {
    if raws == [] then []
    else
      var last := raws[|raws| - 1].user;
      Others(raws[..|raws| - 1], owner) + (if last.Some? && last != Some(owner) then [last.value] else [])
  }

  function Targets(f: Facts, owner: User, includeSelf: bool, raws: seq<Raw>, chats: seq<Chat>)
    : Result<(seq<User>, seq<Chat>)>
  {
    var wanted, cs := Unique(raws), Unique(chats);
    var others := Others(wanted, owner);
    if exists r :: r in wanted && r.user.None? then Err(InvalidRecipient)
    else if |others| > MAX_RECIPIENTS || |cs| > MAX_CHATS then Err(TooManyRecipients)
    else if exists u :: u in others && u !in f.reachable then Err(RecipientUnreachable)
    else if exists c :: c in cs && c !in GroupsOf(f, owner) then Err(ChatNotAllowed)
    else if !includeSelf && others == [] && cs == [] then Err(NoRecipient)
    else Ok(((if includeSelf then [owner] else []) + others, cs))
  }

  lemma {:induction false} OthersExactly(raws: seq<Raw>, owner: User)
    ensures forall u :: u in Others(raws, owner) <==> u != owner && exists r :: r in raws && r.user == Some(u)
  {
    if raws != [] {
      var n := |raws| - 1;
      OthersExactly(raws[..n], owner);
      assert raws == raws[..n] + [raws[n]];
    }
  }

  ghost function Besides(raws: set<Raw>, owner: User): set<Raw> {
    set r | r in raws && r.user != Some(owner)
  }

  lemma BesidesMore(raws: set<Raw>, last: Raw, owner: User)
    requires last !in raws
    ensures |Besides(raws + {last}, owner)| == |Besides(raws, owner)| + if last.user != Some(owner) then 1 else 0
  {
    assert Besides(raws + {last}, owner) == Besides(raws, owner) + if last.user != Some(owner) then {last} else {};
  }

  lemma {:induction false} OthersSize(raws: seq<Raw>, owner: User)
    requires Distinct(raws) && forall r :: r in raws ==> r.user.Some?
    ensures |Others(raws, owner)| == |Besides((set r | r in raws), owner)|
  {
    if raws == [] {
      assert Besides({}, owner) == {};
      assert (set r | r in raws) == {};
    } else {
      var n := |raws| - 1;
      OthersSize(raws[..n], owner);
      assert raws[n] !in raws[..n] && raws == raws[..n] + [raws[n]];
      assert (set r | r in raws) == (set r | r in raws[..n]) + {raws[n]};
      BesidesMore((set r | r in raws[..n]), raws[n], owner);
      hide Distinct, Besides;
    }
  }

  lemma {:induction false} OthersGrow(raws: seq<Raw>, owner: User, n: nat)
    requires n <= |raws|
    ensures Others(raws[..n], owner) <= Others(raws, owner)
    decreases |raws| - n
  {
    if n == |raws| {
      assert raws[..n] == raws;
    } else {
      OthersGrow(raws, owner, n + 1);
      assert raws[..n + 1][..n] == raws[..n];
    }
  }

  /** Recipients that are accepted, whatever their order and their repetitions. */
  ghost predicate GoodTargets(f: Facts, owner: User, includeSelf: bool, raws: set<Raw>, chats: set<Chat>) {
    var others := Besides(raws, owner);
    && (forall r :: r in raws ==> r.user.Some?)
    && |others| <= MAX_RECIPIENTS && |chats| <= MAX_CHATS
    && (forall r :: r in others ==> r.user.value in f.reachable)
    && chats <= GroupsOf(f, owner)
    && (includeSelf || others != {} || chats != {})
  }

  /** The others, as a list and as a set. */
  lemma OthersAsked(raws: seq<Raw>, owner: User)
    ensures var asked := set x | x in raws;
            && (forall r :: r in asked <==> r in Unique(raws))
            && ((forall r :: r in asked ==> r.user.Some?) ==>
                  var others := Besides(asked, owner);
                  && |Others(Unique(raws), owner)| == |others|
                  && (forall r :: r in others ==> r.user.value in Others(Unique(raws), owner))
                  && (forall u :: u in Others(Unique(raws), owner) ==> Some(u) in set r | r in others :: r.user))
  {
    var asked, wanted := (set x | x in raws), Unique(raws);
    UniqueExactly(raws);
    OthersExactly(wanted, owner);
    if forall x :: x in wanted ==> x.user.Some? {
      OthersSize(wanted, owner);
      assert asked == set r | r in wanted;
    }
  }

  /** Recipients are accepted or not as a set. */
  lemma TargetsAccepted(f: Facts, owner: User, includeSelf: bool, raws: seq<Raw>, chats: seq<Chat>)
    ensures Targets(f, owner, includeSelf, raws, chats).Ok?
            <==> GoodTargets(f, owner, includeSelf, set x | x in raws, set c | c in chats)
  {
    OthersAsked(raws, owner);
    UniqueExactly(chats);
    UniqueSize(chats);
    hide Unique, Others, Distinct;
  }

  /** Accepted recipients are those asked for, the owner first. */
  lemma TargetsAre(f: Facts, owner: User, includeSelf: bool, raws: seq<Raw>, chats: seq<Chat>)
    requires Targets(f, owner, includeSelf, raws, chats).Ok?
    ensures var (users, cs) := Targets(f, owner, includeSelf, raws, chats).value;
            && (forall u :: u in users
                  <==> if u == owner then includeSelf else exists r :: r in raws && r.user == Some(u))
            && (includeSelf ==> users[0] == owner)
            && Distinct(cs) && forall c :: c in cs <==> c in chats
  {
    UniqueExactly(raws);
    UniqueExactly(chats);
    OthersExactly(Unique(raws), owner);
    hide Unique, Others, Distinct, GroupsOf;
  }

  /** Further recipients move none of those before. */
  lemma TargetsGrow(f: Facts, owner: User, includeSelf: bool, raws: seq<Raw>, chats: seq<Chat>, n: nat, m: nat)
    requires n <= |raws| && m <= |chats|
    requires Targets(f, owner, includeSelf, raws, chats).Ok?
    requires Targets(f, owner, includeSelf, raws[..n], chats[..m]).Ok?
    ensures var (users, cs) := Targets(f, owner, includeSelf, raws, chats).value;
            var (fewer, cs0) := Targets(f, owner, includeSelf, raws[..n], chats[..m]).value;
            fewer <= users && cs0 <= cs
  {
    UniqueGrows(raws, n);
    UniqueGrows(chats, m);
    var wanted, k := Unique(raws), |Unique(raws[..n])|;
    OthersGrow(wanted, owner, k);
    assert wanted[..k] == Unique(raws[..n]);
    hide Unique, Others, GroupsOf;
  }

  /** `resolve_targets`. */
  method ResolveTargets(f: Facts, owner: User, includeSelf: bool, raws: seq<Raw>, chats: seq<Chat>)
    returns (r: Result<(seq<User>, seq<Chat>)>)
    ensures r == Targets(f, owner, includeSelf, raws, chats)
  {
    hide Unique;
    var wanted, cs := Unique(raws), Unique(chats);
    var others: seq<User> := [];
    for i := 0 to |wanted|
      invariant others == Others(wanted[..i], owner)
      invariant forall k :: 0 <= k < i ==> wanted[k].user.Some?
    {
      assert wanted[..i + 1][..i] == wanted[..i];
      if wanted[i].user.None? {
        assert wanted[i] in wanted;
        return Err(InvalidRecipient);
      }
      if wanted[i].user.value != owner {
        others := others + [wanted[i].user.value];
      }
    }
    assert wanted[..|wanted|] == wanted;
    assert forall x :: x in wanted ==> x.user.Some?;
    if |others| > MAX_RECIPIENTS || |cs| > MAX_CHATS {
      return Err(TooManyRecipients);
    }
    for i := 0 to |others|
      invariant forall k :: 0 <= k < i ==> others[k] in f.reachable
    {
      if others[i] !in f.reachable {
        assert others[i] in others;
        return Err(RecipientUnreachable);
      }
    }
    if exists c :: c in cs && c !in GroupsOf(f, owner) {
      return Err(ChatNotAllowed);
    }
    if !includeSelf && others == [] && cs == [] {
      return Err(NoRecipient);
    }
    r := Ok(((if includeSelf then [owner] else []) + others, cs));
  }

  // ---- drafts and tasks ----

  /** `plain`: no e-mail, webhook or system prompt, which a personal task never has.
      `forcedBy`: who has asked for a run at once that has not started. */
  datatype Job = Job(owner: User, enabled: bool, name: string, prompt: string, anchor: Chat, schedule: Schedule,
                     next: Option<Time>, expires: Option<Time>, users: seq<User>, chats: seq<Chat>,
                     script: Option<string>, version: nat, running: bool, forcedBy: Option<User>, plain: bool)

  /** Running, or waiting to be run at once. */
  predicate Busy(job: Job) {
    job.running || job.forcedBy.Some?
  }

  /** The version counts the updates that change something. */
  function Updated(job: Job, later: Job): Job {
    if later == job then job else later.(version := job.version + 1)
  }

  /** Where a draft comes from: the person, and the private chat or group. */
  datatype Origin = Origin(user: User, chat: Chat, group: bool)

  /** What is asked for; recipients that are not mentioned have defaults. */
  datatype Args = Args(name: string, prompt: string, cron: string, runAt: Option<Time>, expires: Option<Time>,
                       includeSelf: Option<bool>, raws: seq<Raw>, chats: Option<seq<Chat>>, script: Option<string>)

  /** `job`: the task to change, in the version that was seen. */
  datatype Draft = Draft(group: bool, job: Option<(JobId, nat)>, name: string, prompt: string, cron: string,
                         runAt: Option<Time>, expires: Option<Time>, users: seq<User>, chats: seq<Chat>,
                         script: Option<string>)

  function ActiveOf(jobs: map<JobId, Job>, user: User): set<JobId> {
    set id | id in jobs && jobs[id].owner == user && jobs[id].enabled
  }

  /** The rest of the world during one call. */
  datatype Moment = Moment(now: Time, fires: seq<Time>, scriptGood: bool, pending: nat)

  function CronOf(s: Schedule): string {
    if s.Recurring? then s.cron else ""
  }

  function RunAtOf(s: Schedule): Option<Time> {
    if s.Once? then Some(s.at) else None
  }

  function PrivateChat(f: Facts, user: User): Result<Chat> {
    if user in f.reached && f.reached[user] != "" then Ok(f.reached[user]) else Err(PrivateChatRequired)
  }

  /** The private chat a person is known by. */
  function PlaceOf(f: Facts, user: User): Option<Chat> {
    if user in f.reached then Some(f.reached[user]) else None
  }

  function WithSelf(args: Args, origin: Origin): bool {
    if args.includeSelf.Some? then args.includeSelf.value else !origin.group
  }

  function WithChats(args: Args, origin: Origin): seq<Chat> {
    if args.chats.Some? then args.chats.value else if origin.group then [origin.chat] else []
  }

  /** `open_draft`: what is stored for the card. */
  function Opened(f: Facts, jobs: map<JobId, Job>, origin: Origin, args: Args, job: Option<JobId>,
                  m: Moment): Result<Draft>
    requires job.Some? ==> job.value in jobs
  {
    var plan := Planned(args.cron, args.runAt, m.fires, m.now);
    if plan.Err? then Err(plan.code)
    else if !ExpiryFits(args.expires, plan.value, m.now) then Err(InvalidExpiry)
    else if args.script.Some? && !m.scriptGood then Err(InvalidPrecheck)
    else
      var targets := Targets(f, origin.user, WithSelf(args, origin), args.raws, WithChats(args, origin));
      if targets.Err? then Err(targets.code)
      else if origin.group && WithSelf(args, origin) && PrivateChat(f, origin.user).Err? then Err(PrivateChatRequired)
      else if (job.None? || !jobs[job.value].enabled) && |ActiveOf(jobs, origin.user)| >= MAX_ACTIVE
      then Err(TooManySchedules)
      else if m.pending >= MAX_PENDING then Err(TooManyPending)
      else
        var s := plan.value.schedule;
        Ok(Draft(origin.group, if job.Some? then Some((job.value, jobs[job.value].version)) else None,
                 args.name, args.prompt, CronOf(s), RunAtOf(s), args.expires,
                 targets.value.0, targets.value.1, args.script))
  }

  function Cut(s: string, n: nat): string {
    if |s| <= n then s else s[..n]
  }

  /** What is checked about the task that a draft changes. */
  function Unchangeable(jobs: map<JobId, Job>, actor: User, d: Draft): Option<Code> {
    if d.job.None? then None
    else
      var (id, version) := d.job.value;
      if id !in jobs || jobs[id].owner != actor then Some(NotFound)
      else if jobs[id].version != version then Some(Changed)
      else if Busy(jobs[id]) then Some(StillBusy)
      else None
  }

  /** The place of the conversation to deliver to. */
  function Anchor(f: Facts, actor: User, chat: Chat, d: Draft): Result<Chat> {
    if d.group && actor in d.users then PrivateChat(f, actor) else Ok(chat)
  }

  function OthersWritten(users: seq<User>, actor: User): seq<Raw> {
    Canonical(Others(Canonical(users), actor))
  }

  /** `apply_confirmed`: the facts, the task, and its new content. `freshId`: the id
      a new task would get. */
  function Confirmed(f: Facts, jobs: map<JobId, Job>, actor: User, chat: Chat, d: Draft, m: Moment, freshId: JobId)
    : Result<(Facts, JobId, Job)>
  {
    if actor !in f.allowed then Err(Forbidden)
    else
      var anchor := Anchor(f, actor, chat, d);
      if anchor.Err? then Err(anchor.code)
      else
        var plan := Planned(d.cron, d.runAt, m.fires, m.now);
        if plan.Err? then Err(plan.code)
        else if !ExpiryFits(d.expires, plan.value, m.now) then Err(InvalidExpiry)
        else if d.script.Some? && !m.scriptGood then Err(InvalidPrecheck)
        else
          var targets := Targets(f, actor, actor in d.users, OthersWritten(d.users, actor), d.chats);
          if targets.Err? then Err(targets.code)
          else
            var bad := Unchangeable(jobs, actor, d);
            if bad.Some? then Err(bad.value)
            else if (d.job.None? || !jobs[d.job.value.0].enabled) && |ActiveOf(jobs, actor)| >= MAX_ACTIVE
            then Err(TooManySchedules)
            else Ok(Stored(f, jobs, actor, chat, d, anchor.value, plan.value, targets.value, freshId))
  }

  /** The values that are written. */
  function Stored(f: Facts, jobs: map<JobId, Job>, actor: User, chat: Chat, d: Draft, anchor: Chat, plan: Plan,
                  targets: (seq<User>, seq<Chat>), freshId: JobId): (Facts, JobId, Job)
    requires d.job.Some? ==> d.job.value.0 in jobs
  {
    var known := if d.group then f else f.(reached := f.reached[actor := chat]);
    var blank := Job(actor, true, "", "", "", plan.schedule, None, None, [], [], None, 0, false, None, true);
    var before := if d.job.Some? then jobs[d.job.value.0] else blank;
    (known, if d.job.Some? then d.job.value.0 else freshId,
     before.(enabled := true, name := Cut(d.name, NAME_MAX), prompt := Cut(d.prompt, PROMPT_MAX), anchor := anchor,
             schedule := plan.schedule, next := Some(plan.next), expires := d.expires,
             users := targets.0, chats := targets.1, script := d.script, version := before.version + 1))
  }

  /** `require_personal`: may the task run as its owner? */
  predicate MayRun(f: Facts, job: Job, actor: User) {
    var privately := actor in f.reached && f.reached[actor] == job.anchor;
    var groups := GroupsOf(f, actor);
    && actor in f.allowed
    && job.owner == actor
    && (job.users != [] || job.chats != [])
    && |(set u | u in job.users) - {actor}| <= MAX_RECIPIENTS
    && |job.chats| <= MAX_CHATS
    && job.plain
    && (job.forcedBy == None || job.forcedBy == Some(actor))
    && job.anchor != ""
    && 1 <= |job.prompt| <= PROMPT_MAX
    && (privately || (actor !in job.users && job.anchor in groups))
    && forall c :: c in job.chats ==> c in groups
  }

  /** `draft_of`: a task as arguments again. */
  function DraftOf(job: Job): Args {
    Args(job.name, job.prompt, CronOf(job.schedule), RunAtOf(job.schedule), job.expires,
         Some(job.owner in job.users), OthersWritten(job.users, job.owner), Some(job.chats), job.script)
  }

  // ---- what is confirmed may run ----

  lemma {:induction false} SetSize<T>(s: seq<T>)
    ensures |set x | x in s| <= |s|
  {
    if s != [] {
      var n := |s| - 1;
      SetSize(s[..n]);
      assert s == s[..n] + [s[n]];
      assert (set x | x in s) == (set x | x in s[..n]) + {s[n]};
    }
  }

  /** What recipients that were accepted have in common. */
  lemma TargetsFit(f: Facts, owner: User, includeSelf: bool, raws: seq<Raw>, chats: seq<Chat>)
    requires Targets(f, owner, includeSelf, raws, chats).Ok?
    ensures var (users, cs) := Targets(f, owner, includeSelf, raws, chats).value;
            && (owner in users <==> includeSelf)
            && (users != [] || cs != [])
            && |(set u | u in users) - {owner}| <= MAX_RECIPIENTS
            && |cs| <= MAX_CHATS && forall c :: c in cs ==> c in GroupsOf(f, owner)
  {
    var others := Others(Unique(raws), owner);
    OthersExactly(Unique(raws), owner);
    hide Others, Unique;
    FewOthers(owner, includeSelf, others);
  }

  lemma FewOthers(owner: User, includeSelf: bool, others: seq<User>)
    ensures var users := (if includeSelf then [owner] else []) + others;
            |(set u | u in users) - {owner}| <= |others|
  {
    SetSize(others);
    var users := (if includeSelf then [owner] else []) + others;
    SubsetSize((set u | u in users) - {owner}, set u | u in others);
  }

  predicate Anchored(f: Facts, actor: User, chat: Chat, d: Draft) {
    if !d.group then chat != ""
    else actor in d.users
         || (chat != "" && (chat in GroupsOf(f, actor) || (actor in f.reached && f.reached[actor] == chat)))
  }

  /** MAIN RESULT (gate): a task just confirmed may run, as long as the facts stay
      as they are, exactly if it has a prompt and a place to deliver to: any
      private chat, or a group in which its owner is known to have spoken. */
  lemma {:induction false} ConfirmedMayRun(f: Facts, jobs: map<JobId, Job>, actor: User, chat: Chat, d: Draft,
                                           m: Moment, freshId: JobId)
    requires Confirmed(f, jobs, actor, chat, d, m, freshId).Ok?
    requires d.job.Some? ==> jobs[d.job.value.0].plain
    ensures var (known, _, job) := Confirmed(f, jobs, actor, chat, d, m, freshId).value;
            MayRun(known, job, actor) <==> d.prompt != "" && Anchored(f, actor, chat, d)
  {
    hide Targets, OthersWritten, Planned, ExpiryFits, ActiveOf;
    TargetsFit(f, actor, actor in d.users, OthersWritten(d.users, actor), d.chats);
    var (known, _, job) := Confirmed(f, jobs, actor, chat, d, m, freshId).value;
    assert job.plain && job.owner == actor && (job.forcedBy == None || job.forcedBy == Some(actor));
    hide Confirmed;
  }

  // ---- a task as a draft, and back ----

  /** No recipient twice, the owner first. */
  ghost predicate Neat(job: Job) {
    && Distinct(job.users) && (job.owner in job.users ==> job.users[0] == job.owner)
    && Distinct(job.chats) && |job.name| <= NAME_MAX && |job.prompt| <= PROMPT_MAX
  }

  lemma {:induction false} OthersOfCanonical(users: seq<User>, owner: User)
    requires owner !in users
    ensures Others(Canonical(users), owner) == users
  {
    if users != [] {
      var n := |users| - 1;
      assert Canonical(users)[..n] == Canonical(users[..n]);
      OthersOfCanonical(users[..n], owner);
      assert users == users[..n] + [users[n]];
    }
  }

  lemma {:induction false} OthersAfterOwner(users: seq<User>, owner: User)
    requires owner !in users
    ensures Others(Canonical([owner] + users), owner) == users
  {
    if users == [] {
      assert Canonical([owner])[..0] == [];
    } else {
      var n := |users| - 1;
      var all := [owner] + users;
      assert Canonical(all)[..n + 1] == Canonical([owner] + users[..n]);
      OthersAfterOwner(users[..n], owner);
      assert users == users[..n] + [users[n]];
    }
  }

  lemma {:induction false} OthersDistinct(raws: seq<Raw>, owner: User)
    requires Distinct(raws) && forall r :: r in raws ==> r.user == Some(r.text)
    ensures Distinct(Others(raws, owner))
  {
    if raws != [] {
      var n := |raws| - 1;
      OthersDistinct(raws[..n], owner);
      OthersExactly(raws[..n], owner);
      assert raws == raws[..n] + [raws[n]];
    }
  }

  /** Canonical recipients, without the owner, come out as they went in. */
  lemma TargetsOfCanonical(f: Facts, owner: User, includeSelf: bool, others: seq<User>, chats: seq<Chat>)
    requires Targets(f, owner, includeSelf, Canonical(others), chats).Ok? && owner !in others
    ensures var (users, cs) := Targets(f, owner, includeSelf, Canonical(others), chats).value;
            && Distinct(users) && (owner in users ==> users[0] == owner) && Distinct(cs)
            && (Distinct(others) ==> users == (if includeSelf then [owner] else []) + others)
            && (Distinct(chats) ==> cs == chats)
  {
    var raws := Canonical(others);
    UniqueExactly(raws);
    UniqueExactly(chats);
    CanonicalOthers(others, owner);
    hide Unique, Others, Canonical;
    OwnerFirst(owner, includeSelf, Others(Unique(raws), owner));
    hide Distinct;
  }

  /** What there is against recipients already resolved, as sets. */
  ghost function Objection(f: Facts, owner: User, users: set<User>, chats: set<Chat>): Option<Code> {
    if |users - {owner}| > MAX_RECIPIENTS || |chats| > MAX_CHATS then Some(TooManyRecipients)
    else if !(users - {owner} <= f.reachable) then Some(RecipientUnreachable)
    else if !(chats <= GroupsOf(f, owner)) then Some(ChatNotAllowed)
    else if users == {} && chats == {} then Some(NoRecipient)
    else None
  }

  lemma CanonicalHas(users: seq<User>)
    ensures forall r :: r in Canonical(users) <==> r.user == Some(r.text) && r.text in users
    ensures forall u :: u in users ==> Raw(u, Some(u)) in Canonical(users)
  {
    forall u | u in users ensures Raw(u, Some(u)) in Canonical(users) {
      var i :| 0 <= i < |users| && users[i] == u;
      assert Canonical(users)[i] == Raw(u, Some(u));
    }
    forall r | r in Canonical(users) ensures r.user == Some(r.text) && r.text in users {
      var i :| 0 <= i < |users| && Canonical(users)[i] == r;
    }
    forall r: Raw | r.user == Some(r.text) && r.text in users ensures r in Canonical(users) {
      assert r == Raw(r.text, Some(r.text));
    }
  }

  /** The owner's fellow recipients, once each. */
  lemma FellowsAre(users: seq<User>, owner: User)
    ensures var found := Others(Unique(OthersWritten(users, owner)), owner);
            && (forall u :: u in found <==> u in users && u != owner)
            && |found| == |(set u | u in users) - {owner}|
            && forall r :: r in Unique(OthersWritten(users, owner)) ==> r.user.Some?
  {
    var fellows := Others(Canonical(users), owner);
    OthersExactly(Canonical(users), owner);
    CanonicalHas(users);
    assert owner !in fellows && forall u :: u in fellows <==> u in users && u != owner;
    hide Others;
    CanonicalOthers(fellows, owner);
    FoundAre(fellows, owner);
    var found := Others(Unique(Canonical(fellows)), owner);
    hide Canonical, Unique, Distinct;
    DistinctSize(found);
    assert (set u | u in found) == (set u | u in users) - {owner};
  }

  lemma FoundAre(fellows: seq<User>, owner: User)
    requires owner !in fellows
    ensures forall u :: u in Others(Unique(Canonical(fellows)), owner) <==> u in fellows
    ensures forall r :: r in Unique(Canonical(fellows)) ==> r.user.Some?
  {
    UniqueExactly(Canonical(fellows));
    OthersExactly(Unique(Canonical(fellows)), owner);
    CanonicalHas(fellows);
    hide Others, Unique, Canonical;
  }

  lemma DistinctSize<T>(s: seq<T>)
    requires Distinct(s)
    ensures |s| == |set x | x in s|
  {
    UniqueExactly(s);
    UniqueSize(s);
  }

  ghost function ObjectionToLists(f: Facts, owner: User, includeSelf: bool, others: seq<User>, cs: seq<Chat>)
    : Option<Code>
  {
    if |others| > MAX_RECIPIENTS || |cs| > MAX_CHATS then Some(TooManyRecipients)
    else if exists u :: u in others && u !in f.reachable then Some(RecipientUnreachable)
    else if exists c :: c in cs && c !in GroupsOf(f, owner) then Some(ChatNotAllowed)
    else if !includeSelf && others == [] && cs == [] then Some(NoRecipient)
    else None
  }

  lemma SameObjection(f: Facts, owner: User, others: seq<User>, cs: seq<Chat>, users: set<User>, chats: set<Chat>)
    requires (forall u :: u in others <==> u in users - {owner}) && |others| == |users - {owner}|
    requires (forall c :: c in cs <==> c in chats) && |cs| == |chats|
    ensures Objection(f, owner, users, chats) == ObjectionToLists(f, owner, owner in users, others, cs)
  {
    hide GroupsOf;
    assert others == [] <==> users - {owner} == {};
    assert cs == [] <==> chats == {};
    assert users == {} <==> users - {owner} == {} && owner !in users;
  }

  lemma ObjectionIs(f: Facts, owner: User, includeSelf: bool, raws: seq<Raw>, chats: seq<Chat>)
    requires forall r :: r in Unique(raws) ==> r.user.Some?
    ensures var r := Targets(f, owner, includeSelf, raws, chats);
            var bad := ObjectionToLists(f, owner, includeSelf, Others(Unique(raws), owner), Unique(chats));
            if bad.Some? then r == Err(bad.value) else r.Ok?
  {
    hide Unique, Others, GroupsOf;
  }

  /** Recipients already resolved are accepted again or refused as a set. */
  lemma RecipientsAccepted(f: Facts, owner: User, users: seq<User>, chats: seq<Chat>)
    ensures var r := Targets(f, owner, owner in users, OthersWritten(users, owner), chats);
            var bad := Objection(f, owner, (set u | u in users), set c | c in chats);
            if bad.Some? then r == Err(bad.value) else r.Ok?
  {
    hide *;
    var found := Others(Unique(OthersWritten(users, owner)), owner);
    var all, cs := (set u | u in users), set c | c in chats;
    FellowsAre(users, owner);
    UniqueExactly(chats);
    UniqueSize(chats);
    ObjectionIs(f, owner, owner in users, OthersWritten(users, owner), chats);
    assert forall u :: u in found <==> u in all - {owner};
    assert forall c :: c in Unique(chats) <==> c in cs;
    SameObjection(f, owner, found, Unique(chats), all, cs);
    assert owner in users <==> owner in all;
  }

  lemma OwnerFirst(owner: User, includeSelf: bool, others: seq<User>)
    requires Distinct(others) && owner !in others
    ensures var users := (if includeSelf then [owner] else []) + others;
            Distinct(users) && (owner in users ==> users[0] == owner)
  {}

  lemma CanonicalOthers(others: seq<User>, owner: User)
    requires owner !in others
    ensures var found := Others(Unique(Canonical(others)), owner);
            Distinct(found) && owner !in found && (Distinct(others) ==> found == others)
  {
    var raws := Canonical(others);
    UniqueExactly(raws);
    assert forall r :: r in raws ==> r.user == Some(r.text);
    OthersDistinct(Unique(raws), owner);
    OthersExactly(Unique(raws), owner);
    if Distinct(others) {
      assert Distinct(raws);
      OthersOfCanonical(others, owner);
    }
  }

  lemma ConfirmedNeat(f: Facts, jobs: map<JobId, Job>, actor: User, chat: Chat, d: Draft, m: Moment, freshId: JobId)
    requires Confirmed(f, jobs, actor, chat, d, m, freshId).Ok?
    ensures Neat(Confirmed(f, jobs, actor, chat, d, m, freshId).value.2)
    ensures Confirmed(f, jobs, actor, chat, d, m, freshId).value.2.owner == actor
  {
    var others := Others(Canonical(d.users), actor);
    OthersExactly(Canonical(d.users), actor);
    hide Targets, Others, Planned, ExpiryFits;
    TargetsOfCanonical(f, actor, actor in d.users, others, d.chats);
  }

  /** When a draft is stored for confirmation. What is not mentioned: outside groups it
      is for the person alone, inside for the group alone. */
  lemma OpenedWhen(f: Facts, jobs: map<JobId, Job>, origin: Origin, args: Args, job: Option<JobId>, m: Moment)
    requires job.Some? ==> job.value in jobs
    ensures var self := args.includeSelf == Some(true) || (args.includeSelf.None? && !origin.group);
            var chats := if args.chats.Some? then args.chats.value else if origin.group then [origin.chat] else [];
            Opened(f, jobs, origin, args, job, m).Ok?
            <==> && GoodTime(args.cron, args.runAt, m.fires, m.now)
                 && (args.expires.Some? ==>
                       m.now < args.expires.value && (args.cron == "" ==> args.runAt.value < args.expires.value))
                 && (args.script.Some? ==> m.scriptGood)
                 && GoodTargets(f, origin.user, self, (set r | r in args.raws), set c | c in chats)
                 && (origin.group && self ==> PlaceOf(f, origin.user) !in {None, Some("")})
                 && ((job.Some? && jobs[job.value].enabled)
                     || |set k | k in jobs && jobs[k].enabled && jobs[k].owner == origin.user| < MAX_ACTIVE)
                 && m.pending < MAX_PENDING
  {
    PlanAccepted(args.cron, args.runAt, m.fires, m.now);
    TargetsAccepted(f, origin.user, WithSelf(args, origin), args.raws, WithChats(args, origin));
    assert ActiveOf(jobs, origin.user) == set k | k in jobs && jobs[k].enabled && jobs[k].owner == origin.user;
    hide Planned, Targets, GoodTime, BadTime, GoodTargets, ActiveOf;
  }

  lemma OpenedIs(f: Facts, jobs: map<JobId, Job>, origin: Origin, args: Args, job: Option<JobId>, m: Moment)
    requires job.Some? ==> job.value in jobs
    requires Opened(f, jobs, origin, args, job, m).Ok?
    ensures var d := Opened(f, jobs, origin, args, job, m).value;
            var t := Targets(f, origin.user, WithSelf(args, origin), args.raws, WithChats(args, origin));
            && t.Ok? && (d.users, d.chats) == t.value
            && (d.name, d.prompt, d.expires, d.script) == (args.name, args.prompt, args.expires, args.script)
            && (args.cron != "" ==> d.cron == args.cron && d.runAt.None?)
            && (args.cron == "" ==> args.runAt.Some? && d.cron == "" && d.runAt == args.runAt)
            && d.group == origin.group
            && d.job == if job.Some? then Some((job.value, jobs[job.value].version)) else None
  {}

  lemma ConfirmedIs(f: Facts, jobs: map<JobId, Job>, actor: User, chat: Chat, d: Draft, m: Moment, freshId: JobId)
    requires Confirmed(f, jobs, actor, chat, d, m, freshId).Ok?
    ensures var (_, id, job) := Confirmed(f, jobs, actor, chat, d, m, freshId).value;
            var t := Targets(f, actor, actor in d.users, OthersWritten(d.users, actor), d.chats);
            && t.Ok? && (job.users, job.chats) == t.value
            && job.enabled && job.owner == actor
            && (job.name, job.prompt) == (Cut(d.name, NAME_MAX), Cut(d.prompt, PROMPT_MAX))
            && (job.expires, job.script) == (d.expires, d.script)
            && (d.cron != "" ==> job.schedule == Recurring(d.cron))
            && (d.cron == "" ==> d.runAt.Some? && job.schedule == Once(d.runAt.value))
            && id == (if d.job.Some? then d.job.value.0 else freshId)
            && (d.job.Some? ==> id in jobs && jobs[id].owner == actor)
            && ((id in jobs && jobs[id].enabled && jobs[id].owner == actor && d.job.Some?)
                || |ActiveOf(jobs, actor)| < MAX_ACTIVE)
  {}

  /** What is wrong with a time. */
  ghost function BadTime(cron: string, runAt: Option<Time>, fires: seq<Time>, now: Time): Code {
    if cron != "" && exists k :: TooSoon(fires, now, k) then IntervalTooShort
    else if cron == "" && runAt.Some? then RunAtOutOfRange
    else InvalidSchedule
  }

  /** What there is against a draft, whatever task it is for. */
  ghost function Reason(f: Facts, actor: User, d: Draft, m: Moment): Option<Code> {
    if actor !in f.allowed then Some(Forbidden)
    else if d.group && actor in d.users && (actor in f.reached ==> f.reached[actor] == "")
    then Some(PrivateChatRequired)
    else if !GoodTime(d.cron, d.runAt, m.fires, m.now) then Some(BadTime(d.cron, d.runAt, m.fires, m.now))
    else if d.expires.Some? && !(m.now < d.expires.value && (d.cron == "" ==> d.runAt.value < d.expires.value))
    then Some(InvalidExpiry)
    else if d.script.Some? && !m.scriptGood then Some(InvalidPrecheck)
    else Objection(f, actor, (set u | u in d.users), set c | c in d.chats)
  }

  /** What there is against changing the task. */
  ghost function TaskReason(jobs: map<JobId, Job>, actor: User, id: JobId, seen: nat): Option<Code> {
    if id !in jobs || jobs[id].owner != actor then Some(NotFound)
    else if jobs[id].version != seen then Some(Changed)
    else if jobs[id].running || jobs[id].forcedBy != None then Some(StillBusy)
    else None
  }

  ghost predicate NoRoom(jobs: map<JobId, Job>, actor: User, d: Draft) {
    && (d.job.Some? && d.job.value.0 in jobs ==> !jobs[d.job.value.0].enabled)
    && |set id | id in jobs && jobs[id].enabled && jobs[id].owner == actor| >= MAX_ACTIVE
  }

  lemma ReasonGiven(f: Facts, jobs: map<JobId, Job>, actor: User, chat: Chat, d: Draft, m: Moment, freshId: JobId)
    requires Reason(f, actor, d, m).Some?
    ensures Confirmed(f, jobs, actor, chat, d, m, freshId) == Err(Reason(f, actor, d, m).value)
  {
    PlanAccepted(d.cron, d.runAt, m.fires, m.now);
    RecipientsAccepted(f, actor, d.users, d.chats);
    hide Planned, Targets, GoodTime, TooSoon, Objection, OthersWritten, ActiveOf, Stored, Unchangeable;
  }

  lemma TaskReasonIs(jobs: map<JobId, Job>, actor: User, d: Draft)
    ensures Unchangeable(jobs, actor, d)
            == if d.job.None? then None else TaskReason(jobs, actor, d.job.value.0, d.job.value.1)
    ensures Unchangeable(jobs, actor, d) == None ==>
              && (d.job.Some? ==> d.job.value.0 in jobs)
              && (NoRoom(jobs, actor, d)
                  <==> (d.job.None? || !jobs[d.job.value.0].enabled) && |ActiveOf(jobs, actor)| >= MAX_ACTIVE)
  {
    assert ActiveOf(jobs, actor) == set id | id in jobs && jobs[id].enabled && jobs[id].owner == actor;
  }

  lemma NoReason(f: Facts, jobs: map<JobId, Job>, actor: User, chat: Chat, d: Draft, m: Moment, freshId: JobId)
    requires Reason(f, actor, d, m).None?
    ensures var r := Confirmed(f, jobs, actor, chat, d, m, freshId);
            var taken := if d.job.None? then None else TaskReason(jobs, actor, d.job.value.0, d.job.value.1);
            if taken.Some? then r == Err(taken.value)
            else if NoRoom(jobs, actor, d) then r == Err(TooManySchedules)
            else r.Ok?
  {
    PlanAccepted(d.cron, d.runAt, m.fires, m.now);
    RecipientsAccepted(f, actor, d.users, d.chats);
    TaskReasonIs(jobs, actor, d);
    hide Planned, Targets, GoodTime, BadTime, Objection, OthersWritten, ActiveOf, Stored, Unchangeable, TaskReason,
         NoRoom;
  }

  /** MAIN RESULT (confirmation): a confirmation succeeds exactly if nothing is against
      the draft at that time, the task it changes is still there, the actor's, in the
      version that was seen and not busy, and the task, once switched on, makes no more
      than ten; otherwise the first of these reasons is given. */
  lemma ConfirmedWhen(f: Facts, jobs: map<JobId, Job>, actor: User, chat: Chat, d: Draft, m: Moment, freshId: JobId)
    ensures var r := Confirmed(f, jobs, actor, chat, d, m, freshId);
            var taken := if d.job.None? then None else TaskReason(jobs, actor, d.job.value.0, d.job.value.1);
            if Reason(f, actor, d, m).Some? then r == Err(Reason(f, actor, d, m).value)
            else if taken.Some? then r == Err(taken.value)
            else if NoRoom(jobs, actor, d) then r == Err(TooManySchedules)
            else r.Ok?
  {
    hide *;
    if Reason(f, actor, d, m).Some? {
      ReasonGiven(f, jobs, actor, chat, d, m, freshId);
    } else {
      NoReason(f, jobs, actor, chat, d, m, freshId);
    }
  }

  lemma RecipientsAre(f: Facts, owner: User, users: seq<User>, chats: seq<Chat>)
    requires Targets(f, owner, owner in users, OthersWritten(users, owner), chats).Ok?
    ensures var (us, cs) := Targets(f, owner, owner in users, OthersWritten(users, owner), chats).value;
            && (forall u :: u in us <==> u in users) && (owner in users ==> us[0] == owner)
            && (forall c :: c in cs <==> c in chats)
  {
    var fellows := Others(Canonical(users), owner);
    TargetsAre(f, owner, owner in users, Canonical(fellows), chats);
    CanonicalHas(users);
    CanonicalHas(fellows);
    OthersExactly(Canonical(users), owner);
    hide Targets, Others, Canonical;
    assert OthersWritten(users, owner) == Canonical(fellows);
  }

  /** What a confirmation writes: the content of the draft, cut to length, for the same
      recipients; the first trigger; the place to deliver to, which outside groups is
      also learnt as the actor's private chat. */
  lemma ConfirmedWrites(f: Facts, jobs: map<JobId, Job>, actor: User, chat: Chat, d: Draft, m: Moment, freshId: JobId)
    requires Confirmed(f, jobs, actor, chat, d, m, freshId).Ok?
    ensures var (known, id, job) := Confirmed(f, jobs, actor, chat, d, m, freshId).value;
            && known == f.(reached := if d.group then f.reached else f.reached[actor := chat])
            && id == (if d.job.Some? then d.job.value.0 else freshId)
            && job.enabled && job.owner == actor && !job.running && job.forcedBy == None
            && job.name <= d.name && (|job.name| == NAME_MAX || job.name == d.name)
            && job.prompt <= d.prompt && (|job.prompt| == PROMPT_MAX || job.prompt == d.prompt)
            && (job.expires, job.script) == (d.expires, d.script)
            && (d.cron != "" ==> job.schedule == Recurring(d.cron) && job.next.Some? && [job.next.value] <= m.fires)
            && (d.cron == "" ==> job.next.Some? && job.next == d.runAt && job.schedule == Once(job.next.value))
            && (forall u :: u in job.users <==> u in d.users) && (actor in d.users ==> job.users[0] == actor)
            && (forall c :: c in job.chats <==> c in d.chats)
            && (if d.group && actor in d.users then Some(job.anchor) == PlaceOf(f, actor) else job.anchor == chat)
            && (if d.job.Some? then id in jobs && job.version == jobs[id].version + 1 && job.plain == jobs[id].plain
                else job.version == 1 && job.plain)
  {
    PlanAccepted(d.cron, d.runAt, m.fires, m.now);
    RecipientsAre(f, actor, d.users, d.chats);
    hide Planned, Targets, GoodTime, OthersWritten, ActiveOf;
  }

  predicate SameTask(a: Job, b: Job) {
    && (a.owner, a.name, a.prompt, a.schedule, a.expires) == (b.owner, b.name, b.prompt, b.schedule, b.expires)
    && (a.users, a.chats, a.script) == (b.users, b.chats, b.script)
  }

  /** MAIN RESULT (round trip): a task turned into a draft and confirmed again, at
      other times and perhaps from another conversation, is the same task exactly
      if its recipients are neat, which those of a confirmed task always are. */
  lemma {:induction false} DraftRoundTrip(f: Facts, jobs: map<JobId, Job>, id: JobId, origin: Origin, m: Moment,
                       f2: Facts, jobs2: map<JobId, Job>, chat: Chat, m2: Moment, freshId: JobId)
    requires id in jobs && origin.user == jobs[id].owner
    requires jobs[id].schedule.Recurring? ==> jobs[id].schedule.cron != ""
    requires var draft := Opened(f, jobs, origin, DraftOf(jobs[id]), Some(id), m);
             draft.Ok? && Confirmed(f2, jobs2, origin.user, chat, draft.value, m2, freshId).Ok?
    ensures var d := Opened(f, jobs, origin, DraftOf(jobs[id]), Some(id), m).value;
            SameTask(Confirmed(f2, jobs2, origin.user, chat, d, m2, freshId).value.2, jobs[id]) <==> Neat(jobs[id])
  {
    var job, owner := jobs[id], origin.user;
    var d := Opened(f, jobs, origin, DraftOf(job), Some(id), m).value;
    OpenedIs(f, jobs, origin, DraftOf(job), Some(id), m);
    ConfirmedIs(f2, jobs2, owner, chat, d, m2, freshId);
    ConfirmedNeat(f2, jobs2, owner, chat, d, m2, freshId);
    var again := Confirmed(f2, jobs2, owner, chat, d, m2, freshId).value.2;
    hide Opened, Confirmed;
    if Neat(job) {
      RecipientsReturn(f, owner, job.users, job.chats);
      assert (d.users, d.chats) == (job.users, job.chats);
      RecipientsReturn(f2, owner, job.users, job.chats);
      hide Targets, OthersWritten;
    }
  }

  lemma RecipientsReturn(f: Facts, owner: User, users: seq<User>, chats: seq<Chat>)
    requires Distinct(users) && (owner in users ==> users[0] == owner) && Distinct(chats)
    requires Targets(f, owner, owner in users, OthersWritten(users, owner), chats).Ok?
    ensures Targets(f, owner, owner in users, OthersWritten(users, owner), chats).value == (users, chats)
  {
    var others := if owner in users then users[1..] else users;
    assert users == (if owner in users then [owner] else []) + others;
    assert owner !in others && Distinct(others);
    if owner in users {
      OthersAfterOwner(others, owner);
    } else {
      OthersOfCanonical(others, owner);
    }
    hide Targets;
    TargetsOfCanonical(f, owner, owner in users, others, chats);
  }

  // ---- never more than ten ----

  /** `Pause`: by the owner. `Disable`: by an administrator, who leaves the next time
      as it is. `Force`: the owner wants a run at once. `Begin`: the scheduler starts
      one. `Finish`: it is over. */
  datatype Event =
    | Confirm(actor: User, chat: Chat, draft: Draft, moment: Moment, freshId: JobId)
    | Pause(id: JobId)
    | Disable(id: JobId)
    | Delete(id: JobId)
    | Resume(id: JobId, next: Time)
    | Force(id: JobId)
    | Begin(id: JobId, next: Time)
    | Finish(id: JobId)
    | Learn(facts: Facts)

  datatype World = World(facts: Facts, jobs: map<JobId, Job>)

  /** The owner switches the task on again in the console. */
  function Resumed(w: World, job: Job, next: Time): Job {
    if job.enabled || !MayRun(w.facts, job, job.owner) || |ActiveOf(w.jobs, job.owner)| >= MAX_ACTIVE then job
    else job.(enabled := true, next := Some(next))
  }

  function Begun(f: Facts, job: Job, next: Time): Job {
    if !job.enabled || job.running || !MayRun(f, job, job.owner) then job
    else job.(running := true, forcedBy := None, next := if job.schedule.Once? then None else Some(next))
  }

  /** One task after an event about it. */
  function Touched(w: World, job: Job, e: Event): Job {
    match e
    case Pause(_) => job.(enabled := false, next := None, forcedBy := None)
    case Disable(_) => job.(enabled := false, forcedBy := None)
    case Resume(_, next) => Resumed(w, job, next)
    case Force(_) => if !job.enabled || Busy(job) then job else job.(forcedBy := Some(job.owner))
    case Begin(_, next) => Begun(w.facts, job, next)
    case Finish(_) => job.(running := false, enabled := job.enabled && !(job.running && job.schedule.Once?))
    case _ => job
  }

  function Step(w: World, e: Event): World {
    match e
    case Confirm(actor, chat, draft, moment, freshId) =>
      var r := Confirmed(w.facts, w.jobs, actor, chat, draft, moment, freshId);
      if r.Err? then w else World(r.value.0, w.jobs[r.value.1 := r.value.2])
    case Delete(id) => w.(jobs := w.jobs - {id})
    case Learn(facts) => w.(facts := facts)
    case _ =>
      if e.id !in w.jobs then w
      else w.(jobs := w.jobs[e.id := Updated(w.jobs[e.id], Touched(w, w.jobs[e.id], e))])
  }

  predicate Enabled(w: World, e: Event) {
    e.Confirm? ==> e.freshId !in w.jobs
  }

  function RunAll(facts: Facts, es: seq<Event>): World {
    if es == [] then World(facts, map[]) else Step(RunAll(facts, es[..|es| - 1]), es[|es| - 1])
  }

  ghost predicate Possible(facts: Facts, es: seq<Event>) {
    forall i :: 0 <= i < |es| ==> Enabled(RunAll(facts, es[..i]), es[i])
  }

  ghost predicate FewEnabled(jobs: map<JobId, Job>, user: User) {
    |ActiveOf(jobs, user)| <= MAX_ACTIVE
  }

  /** Few enough, and all of them personal through and through. */
  ghost predicate Inv(w: World) {
    && (forall u :: FewEnabled(w.jobs, u))
    && (forall id :: id in w.jobs ==> Proper(w.jobs[id]))
  }

  ghost predicate Proper(job: Job) {
    && Neat(job) && job.plain && (job.forcedBy == None || job.forcedBy == Some(job.owner))
    && (job.users != [] || job.chats != [])
    && |(set u | u in job.users) - {job.owner}| <= MAX_RECIPIENTS && |job.chats| <= MAX_CHATS
  }

  lemma PutActive(jobs: map<JobId, Job>, id: JobId, job: Job, u: User)
    requires id in jobs ==> jobs[id].owner == job.owner
    ensures ActiveOf(jobs[id := job], u) <= ActiveOf(jobs, u) + (if job.enabled && job.owner == u then {id} else {})
  {}

  lemma FewActive(jobs: map<JobId, Job>, id: JobId, job: Job, u: User)
    requires |ActiveOf(jobs, u)| <= MAX_ACTIVE && (id in jobs ==> jobs[id].owner == job.owner)
    requires job.enabled && job.owner == u ==> id in ActiveOf(jobs, u) || |ActiveOf(jobs, u)| < MAX_ACTIVE
    ensures |ActiveOf(jobs[id := job], u)| <= MAX_ACTIVE
  {
    PutActive(jobs, id, job, u);
    var more := ActiveOf(jobs, u) + (if job.enabled && job.owner == u then {id} else {});
    SubsetSize(ActiveOf(jobs[id := job], u), more);
    assert id in ActiveOf(jobs, u) ==> more == ActiveOf(jobs, u);
  }

  lemma PutKeeps(w: World, id: JobId, job: Job)
    requires Inv(w) && Proper(job) && (id in w.jobs ==> w.jobs[id].owner == job.owner)
    requires job.enabled ==> id in ActiveOf(w.jobs, job.owner) || |ActiveOf(w.jobs, job.owner)| < MAX_ACTIVE
    ensures Inv(w.(jobs := w.jobs[id := job]))
  {
    hide Proper, ActiveOf;
    var more := w.jobs[id := job];
    forall u ensures FewEnabled(more, u) {
      assert FewEnabled(w.jobs, u);
      FewActive(w.jobs, id, job, u);
    }
  }

  lemma ConfirmedPlain(w: World, e: Event)
    requires Inv(w) && e.Confirm?
    requires Confirmed(w.facts, w.jobs, e.actor, e.chat, e.draft, e.moment, e.freshId).Ok?
    ensures var job := Confirmed(w.facts, w.jobs, e.actor, e.chat, e.draft, e.moment, e.freshId).value.2;
            job.plain && job.forcedBy == None
  {}

  lemma ConfirmedProper(w: World, e: Event)
    requires Inv(w) && e.Confirm?
    requires Confirmed(w.facts, w.jobs, e.actor, e.chat, e.draft, e.moment, e.freshId).Ok?
    ensures Proper(Confirmed(w.facts, w.jobs, e.actor, e.chat, e.draft, e.moment, e.freshId).value.2)
  {
    ConfirmedIs(w.facts, w.jobs, e.actor, e.chat, e.draft, e.moment, e.freshId);
    ConfirmedNeat(w.facts, w.jobs, e.actor, e.chat, e.draft, e.moment, e.freshId);
    ConfirmedPlain(w, e);
    TargetsFit(w.facts, e.actor, e.actor in e.draft.users, OthersWritten(e.draft.users, e.actor), e.draft.chats);
    hide Confirmed, Neat, Targets, Inv, OthersWritten;
  }

  lemma ConfirmKeeps(w: World, e: Event)
    requires Inv(w) && e.Confirm? && Enabled(w, e)
    requires Confirmed(w.facts, w.jobs, e.actor, e.chat, e.draft, e.moment, e.freshId).Ok?
    ensures Inv(Step(w, e))
  {
    var (known, id, job) := Confirmed(w.facts, w.jobs, e.actor, e.chat, e.draft, e.moment, e.freshId).value;
    ConfirmedIs(w.facts, w.jobs, e.actor, e.chat, e.draft, e.moment, e.freshId);
    ConfirmedProper(w, e);
    hide Confirmed, Neat, Targets, Proper;
    PutKeeps(w, id, job);
    assert Inv(World(known, w.jobs[id := job]));
  }

  lemma DeleteKeeps(w: World, id: JobId)
    requires Inv(w)
    ensures Inv(w.(jobs := w.jobs - {id}))
  {
    hide Neat;
    forall u ensures FewEnabled(w.jobs - {id}, u) {
      assert FewEnabled(w.jobs, u);
      SubsetSize(ActiveOf(w.jobs - {id}, u), ActiveOf(w.jobs, u));
    }
  }

  lemma ProperKept(job: Job, later: Job)
    requires Proper(job) && later.plain
    requires later.forcedBy == None || later.forcedBy == job.forcedBy || later.forcedBy == Some(later.owner)
    requires (later.users, later.chats, later.owner, later.name, later.prompt)
             == (job.users, job.chats, job.owner, job.name, job.prompt)
    ensures Proper(later)
  {}

  lemma TouchKeeps(w: World, e: Event)
    requires Inv(w) && !e.Confirm? && !e.Delete? && !e.Learn? && e.id in w.jobs
    ensures Inv(Step(w, e))
  {
    hide Neat, FewEnabled, MayRun;
    var job := w.jobs[e.id];
    var later := Updated(job, Touched(w, job, e));
    assert job.enabled ==> e.id in ActiveOf(w.jobs, job.owner);
    ProperKept(job, later);
    PutKeeps(w, e.id, later);
  }

  lemma StepKeeps(w: World, e: Event)
    requires Inv(w) && Enabled(w, e)
    ensures Inv(Step(w, e))
  {
    hide Proper, FewEnabled, Confirmed, MayRun;
    match e
    case Confirm(actor, chat, draft, moment, freshId) =>
      if Confirmed(w.facts, w.jobs, actor, chat, draft, moment, freshId).Ok? {
        ConfirmKeeps(w, e);
      }
    case Delete(id) => DeleteKeeps(w, id);
    case Learn(_) =>
    case _ =>
      if e.id in w.jobs {
        TouchKeeps(w, e);
      }
  }

  lemma {:induction false} RunKeeps(facts: Facts, es: seq<Event>)
    requires Possible(facts, es)
    ensures Inv(RunAll(facts, es))
  {
    hide Inv, Step, Enabled;
    if es == [] {
      StartKeeps(facts);
    } else {
      var n := |es| - 1;
      assert forall i :: 0 <= i < n ==> es[..n][..i] == es[..i];
      RunKeeps(facts, es[..n]);
      StepKeeps(RunAll(facts, es[..n]), es[n]);
    }
  }

  lemma StartKeeps(facts: Facts)
    ensures Inv(World(facts, map[]))
  {}

  /** MAIN RESULT (limit): over every run nobody has more than ten enabled tasks,
      and every task is neat, so it can be drafted and confirmed again unchanged. */
  lemma {:induction false} NeverMoreThanTen(facts: Facts, es: seq<Event>, user: User)
    requires Possible(facts, es)
    ensures |ActiveOf(RunAll(facts, es).jobs, user)| <= MAX_ACTIVE
    ensures forall id :: id in RunAll(facts, es).jobs ==> Neat(RunAll(facts, es).jobs[id])
  {
    RunKeeps(facts, es);
    hide RunAll, Neat;
    assert FewEnabled(RunAll(facts, es).jobs, user);
    assert forall id :: id in RunAll(facts, es).jobs ==> Proper(RunAll(facts, es).jobs[id]);
  }

  /** MAIN RESULT (check before each run): over every run, and by whatever is known
      later, a task may run for somebody exactly if that is its owner, who may still use
      the bot and whose groups its chats still are, and it has a prompt and a place: the
      owner's private chat as it is now, or, for a task that is not for the owner, a group
      of theirs. */
  lemma MayRunWhen(facts: Facts, es: seq<Event>, id: JobId, later: Facts, user: User)
    requires Possible(facts, es) && id in RunAll(facts, es).jobs
    ensures var job := RunAll(facts, es).jobs[id];
            MayRun(later, job, user)
            <==> && user == job.owner && user in later.allowed && job.prompt != "" && job.anchor != ""
                 && (forall c :: c in job.chats ==> c in GroupsOf(later, user))
                 && (PlaceOf(later, user) == Some(job.anchor)
                     || (user !in job.users && job.anchor in GroupsOf(later, user)))
  {
    RunKeeps(facts, es);
    assert Proper(RunAll(facts, es).jobs[id]);
    hide RunAll, GroupsOf, Distinct;
  }

  // ---- what has become of a task ----

  function RunOf(facts: Facts): seq<Event> -> World {
    (es: seq<Event>) => RunAll(facts, es)
  }

  lemma RunMore(facts: Facts, es: seq<Event>, e: Event)
    ensures RunAll(facts, es + [e]) == Step(RunAll(facts, es), e)
  {
    assert (es + [e])[..|es|] == es;
  }

  /** A confirmation that succeeds and is about this task. */
  ghost predicate Agrees(w: World, e: Event, id: JobId) {
    && e.Confirm? && id == (if e.draft.job.Some? then e.draft.job.value.0 else e.freshId)
    && Reason(w.facts, e.actor, e.draft, e.moment).None?
    && (e.draft.job.Some? ==> TaskReason(w.jobs, e.actor, id, e.draft.job.value.1).None?)
    && !NoRoom(w.jobs, e.actor, e.draft)
  }

  /** A run of it can start: it is switched on, not running, and its owner may run it. */
  predicate Ready(w: World, id: JobId) {
    id in w.jobs && w.jobs[id].enabled && !w.jobs[id].running && MayRun(w.facts, w.jobs[id], w.jobs[id].owner)
  }

  ghost predicate Resumes(w: World, e: Event, id: JobId) {
    && e.Resume? && e.id == id && id in w.jobs && MayRun(w.facts, w.jobs[id], w.jobs[id].owner)
    && |set k | k in w.jobs && w.jobs[k].enabled && w.jobs[k].owner == w.jobs[id].owner| < MAX_ACTIVE
  }

  predicate UsedUp(w: World, e: Event, id: JobId) {
    e == Finish(id) && id in w.jobs && w.jobs[id].running && w.jobs[id].schedule.Once?
  }

  ghost function Creates(id: JobId): (World, Event) -> bool {
    (w: World, e: Event) => Agrees(w, e, id)
  }

  ghost function Removes(id: JobId): (World, Event) -> bool {
    (w: World, e: Event) => e == Delete(id)
  }

  ghost function TurnsOn(id: JobId): (World, Event) -> bool {
    (w: World, e: Event) => Agrees(w, e, id) || Resumes(w, e, id)
  }

  ghost function TurnsOff(id: JobId): (World, Event) -> bool {
    (w: World, e: Event) => e in {Pause(id), Disable(id), Delete(id)} || UsedUp(w, e, id)
  }

  ghost function Starts(id: JobId): (World, Event) -> bool {
    (w: World, e: Event) => e.Begin? && e.id == id && Ready(w, id)
  }

  ghost function Stops(id: JobId): (World, Event) -> bool {
    (w: World, e: Event) => e in {Finish(id), Delete(id)}
  }

  ghost function Asks(id: JobId): (World, Event) -> bool {
    (w: World, e: Event) => e == Force(id) && id in w.jobs && w.jobs[id].enabled && !w.jobs[id].running
  }

  ghost function Settles(id: JobId): (World, Event) -> bool {
    (w: World, e: Event) => e in {Pause(id), Disable(id), Delete(id)} || (e.Begin? && e.id == id && Ready(w, id))
  }

  /** One event, and one task. */
  ghost predicate IsKept(w: World, e: Event, id: JobId) {
    var k := Step(w, e);
    && (id in k.jobs <==> Creates(id)(w, e) || (id in w.jobs && !Removes(id)(w, e)))
    && (id in k.jobs && k.jobs[id].enabled
        <==> TurnsOn(id)(w, e) || (id in w.jobs && w.jobs[id].enabled && !TurnsOff(id)(w, e)))
  }

  ghost predicate IsRun(w: World, e: Event, id: JobId) {
    var k := Step(w, e);
    && (id in k.jobs && k.jobs[id].running
        <==> Starts(id)(w, e) || (id in w.jobs && w.jobs[id].running && !Stops(id)(w, e)))
    && (id in k.jobs && k.jobs[id].forcedBy.Some?
        <==> Asks(id)(w, e) || (id in w.jobs && w.jobs[id].forcedBy.Some? && !Settles(id)(w, e)))
  }

  lemma AgreesIs(w: World, e: Event, id: JobId)
    requires e.Confirm?
    ensures var r := Confirmed(w.facts, w.jobs, e.actor, e.chat, e.draft, e.moment, e.freshId);
            (Agrees(w, e, id) <==> r.Ok? && r.value.1 == id)
            && (r.Ok? && e.draft.job.None? ==> r.value.1 == e.freshId)
  {
    ConfirmedWhen(w.facts, w.jobs, e.actor, e.chat, e.draft, e.moment, e.freshId);
    if Confirmed(w.facts, w.jobs, e.actor, e.chat, e.draft, e.moment, e.freshId).Ok? {
      ConfirmedIs(w.facts, w.jobs, e.actor, e.chat, e.draft, e.moment, e.freshId);
    }
    hide Confirmed, Reason, TaskReason, NoRoom, Targets, ActiveOf;
  }

  lemma ConfirmFollows(w: World, e: Event, id: JobId)
    requires Enabled(w, e) && e.Confirm?
    ensures IsKept(w, e, id) && IsRun(w, e, id)
  {
    AgreesIs(w, e, id);
    var r := Confirmed(w.facts, w.jobs, e.actor, e.chat, e.draft, e.moment, e.freshId);
    if r.Ok? {
      ConfirmedWrites(w.facts, w.jobs, e.actor, e.chat, e.draft, e.moment, e.freshId);
      ConfirmedBusy(w, e);
    }
    hide Confirmed, Agrees, MayRun;
  }

  lemma ConfirmedBusy(w: World, e: Event)
    requires e.Confirm?
    requires Confirmed(w.facts, w.jobs, e.actor, e.chat, e.draft, e.moment, e.freshId).Ok?
    ensures e.draft.job.Some? ==> e.draft.job.value.0 in w.jobs && !Busy(w.jobs[e.draft.job.value.0])
  {}

  lemma TouchIsKept(w: World, e: Event, id: JobId)
    requires !e.Confirm?
    ensures IsKept(w, e, id)
  {
    hide MayRun, Confirmed, Reason;
    if id in w.jobs {
      var owner := w.jobs[id].owner;
      assert ActiveOf(w.jobs, owner) == set k | k in w.jobs && w.jobs[k].enabled && w.jobs[k].owner == owner;
    }
    hide ActiveOf;
  }

  lemma TouchIsRun(w: World, e: Event, id: JobId)
    requires !e.Confirm?
    ensures IsRun(w, e, id)
  {
    hide MayRun, Confirmed, ActiveOf;
  }

  lemma StepFollows(w: World, e: Event, id: JobId)
    requires Enabled(w, e)
    ensures IsKept(w, e, id) && IsRun(w, e, id)
  {
    hide IsKept, IsRun;
    if e.Confirm? {
      ConfirmFollows(w, e, id);
    } else {
      TouchIsKept(w, e, id);
      TouchIsRun(w, e, id);
    }
  }

  lemma {:induction false} KeptFollows(facts: Facts, es: seq<Event>, id: JobId)
    requires Possible(facts, es)
    ensures var w, run := RunAll(facts, es), RunOf(facts);
            && (id in w.jobs <==> Since(run, es, Creates(id), Removes(id)))
            && (id in w.jobs && w.jobs[id].enabled <==> Since(run, es, TurnsOn(id), TurnsOff(id)))
  {
    if es != [] {
      var n := |es| - 1;
      var run := RunOf(facts);
      assert forall i :: 0 <= i < n ==> es[..n][..i] == es[..i];
      KeptFollows(facts, es[..n], id);
      assert es == es[..n] + [es[n]];
      StepFollows(RunAll(facts, es[..n]), es[n], id);
      assert RunAll(facts, es) == Step(RunAll(facts, es[..n]), es[n]);
      hide Since, Step, Creates, Removes, TurnsOn, TurnsOff, Enabled, IsRun;
      SinceMore(run, es[..n], es[n], Creates(id), Removes(id));
      SinceMore(run, es[..n], es[n], TurnsOn(id), TurnsOff(id));
    }
  }

  lemma {:induction false} RunsFollow(facts: Facts, es: seq<Event>, id: JobId)
    requires Possible(facts, es)
    ensures var w, run := RunAll(facts, es), RunOf(facts);
            && (id in w.jobs && w.jobs[id].running <==> Since(run, es, Starts(id), Stops(id)))
            && (id in w.jobs && w.jobs[id].forcedBy.Some? <==> Since(run, es, Asks(id), Settles(id)))
  {
    if es != [] {
      var n := |es| - 1;
      var run := RunOf(facts);
      assert forall i :: 0 <= i < n ==> es[..n][..i] == es[..i];
      RunsFollow(facts, es[..n], id);
      assert es == es[..n] + [es[n]];
      StepFollows(RunAll(facts, es[..n]), es[n], id);
      assert RunAll(facts, es) == Step(RunAll(facts, es[..n]), es[n]);
      hide Since, Step, Starts, Stops, Asks, Settles, Enabled, IsKept;
      SinceMore(run, es[..n], es[n], Starts(id), Stops(id));
      SinceMore(run, es[..n], es[n], Asks(id), Settles(id));
    }
  }

  /** MAIN RESULT (tasks): over every run a task exists from the confirmation that creates
      it until it is deleted; it is switched on since a confirmation of it, or since it was
      resumed; it is running since the scheduler started it, which it does only when the
      owner may run it; and a run at once is outstanding since it was asked for. */
  lemma TasksFollow(facts: Facts, es: seq<Event>, id: JobId)
    requires Possible(facts, es)
    ensures var w, run := RunAll(facts, es), RunOf(facts);
            && (id in w.jobs <==> Since(run, es, Creates(id), Removes(id)))
            && (id in w.jobs && w.jobs[id].enabled <==> Since(run, es, TurnsOn(id), TurnsOff(id)))
            && (id in w.jobs && w.jobs[id].running <==> Since(run, es, Starts(id), Stops(id)))
            && (id in w.jobs && w.jobs[id].forcedBy.Some? <==> Since(run, es, Asks(id), Settles(id)))
  {
    KeptFollows(facts, es, id);
    RunsFollow(facts, es, id);
  }

  /** Only a confirmation changes what a task is; its next time is the one it is given
      when it is switched on or started, and none once it is paused. */
  lemma ContentStays(w: World, e: Event, id: JobId)
    requires id in Step(w, e).jobs && !Agrees(w, e, id)
    ensures id in w.jobs
    ensures var job, later := w.jobs[id], Step(w, e).jobs[id];
            && SameTask(job, later) && (job.anchor, job.plain) == (later.anchor, later.plain)
            && later.next == if e == Pause(id) then None
                             else if e.Resume? && !job.enabled && Resumes(w, e, id) then Some(e.next)
                             else if e.Begin? && e.id == id && Ready(w, id)
                             then (if job.schedule.Once? then None else Some(e.next))
                             else job.next
  {
    if e.Confirm? {
      AgreesIs(w, e, id);
      hide Confirmed, Agrees, MayRun;
    } else {
      hide MayRun, Confirmed;
      if id in w.jobs {
        var owner := w.jobs[id].owner;
        assert ActiveOf(w.jobs, owner) == set k | k in w.jobs && w.jobs[k].enabled && w.jobs[k].owner == owner;
      }
      hide ActiveOf;
    }
  }

  // ---- a stale draft ----

  /** Nobody draws the identity again. */
  ghost predicate NotDrawn(es: seq<Event>, id: JobId) {
    forall i :: 0 <= i < |es| && es[i].Confirm? ==> es[i].freshId != id
  }

  lemma VersionStep(w: World, e: Event, id: JobId)
    requires id in Step(w, e).jobs && (e.Confirm? ==> e.freshId != id)
    ensures id in w.jobs && (Step(w, e).jobs[id] == w.jobs[id] || w.jobs[id].version < Step(w, e).jobs[id].version)
  {
    if e.Confirm? {
      var r := Confirmed(w.facts, w.jobs, e.actor, e.chat, e.draft, e.moment, e.freshId);
      if r.Ok? {
        ConfirmedWrites(w.facts, w.jobs, e.actor, e.chat, e.draft, e.moment, e.freshId);
      }
    }
    hide Confirmed, MayRun;
  }

  lemma {:induction false} VersionsGrow(facts: Facts, es: seq<Event>, more: seq<Event>, id: JobId)
    requires NotDrawn(more, id) && id in RunAll(facts, es + more).jobs
    ensures id in RunAll(facts, es).jobs
    ensures var job, later := RunAll(facts, es).jobs[id], RunAll(facts, es + more).jobs[id];
            later == job || job.version < later.version
    decreases |more|
  {
    if more == [] {
      assert es + more == es;
    } else {
      var n := |more| - 1;
      assert es + more == (es + more[..n]) + [more[n]];
      RunMore(facts, es + more[..n], more[n]);
      hide Step, RunAll;
      VersionStep(RunAll(facts, es + more[..n]), more[n], id);
      VersionsGrow(facts, es, more[..n], id);
    }
  }

  /** MAIN RESULT (no lost update): a draft made from a task is confirmed, whatever
      happens in between, only if the task is still exactly what the draft was made from;
      if it has changed, the confirmation is refused for that, unless the draft itself is
      no longer acceptable. */
  lemma StaleDraft(facts: Facts, es: seq<Event>, more: seq<Event>, id: JobId, actor: User, chat: Chat, d: Draft,
                   m: Moment, freshId: JobId)
    requires id in RunAll(facts, es).jobs && d.job == Some((id, RunAll(facts, es).jobs[id].version))
    requires NotDrawn(more, id)
    ensures var job, k := RunAll(facts, es).jobs[id], RunAll(facts, es + more);
            var r := Confirmed(k.facts, k.jobs, actor, chat, d, m, freshId);
            && (r.Ok? ==> id in k.jobs && k.jobs[id] == job && job.owner == actor)
            && (Reason(k.facts, actor, d, m).None? && id in k.jobs && k.jobs[id].owner == actor ==>
                  (r == Err(Changed) <==> k.jobs[id] != job))
  {
    var k := RunAll(facts, es + more);
    ConfirmedWhen(k.facts, k.jobs, actor, chat, d, m, freshId);
    if id in k.jobs {
      VersionsGrow(facts, es, more, id);
    }
    hide RunAll, Confirmed, Reason, NoRoom;
  }

  /** From the card of a draft to its confirmation. */
  lemma CardIsStale(facts: Facts, es: seq<Event>, more: seq<Event>, id: JobId, origin: Origin, args: Args, m0: Moment,
                    chat: Chat, m: Moment, freshId: JobId)
    requires id in RunAll(facts, es).jobs && NotDrawn(more, id)
    requires Opened(RunAll(facts, es).facts, RunAll(facts, es).jobs, origin, args, Some(id), m0).Ok?
    ensures var w, k := RunAll(facts, es), RunAll(facts, es + more);
            var d := Opened(w.facts, w.jobs, origin, args, Some(id), m0).value;
            Confirmed(k.facts, k.jobs, origin.user, chat, d, m, freshId).Ok? ==>
              id in k.jobs && k.jobs[id] == w.jobs[id] && w.jobs[id].owner == origin.user
  {
    var w := RunAll(facts, es);
    OpenedIs(w.facts, w.jobs, origin, args, Some(id), m0);
    hide RunAll, Opened, Confirmed, Reason;
    StaleDraft(facts, es, more, id, origin.user, chat, Opened(w.facts, w.jobs, origin, args, Some(id), m0).value,
               m, freshId);
  }

  // ---- the code ----

  class Database {
    var facts: Facts
    var jobs: map<JobId, Job>

    constructor (facts: Facts)
      ensures this.facts == facts && jobs == map[]
    {
      this.facts, jobs := facts, map[];
    }

    /** `apply_confirmed`. */
    method ApplyConfirmed(actor: User, chat: Chat, d: Draft, m: Moment, freshId: JobId) returns (r: Result<JobId>)
      modifies this
      ensures var stored := Confirmed(old(facts), old(jobs), actor, chat, d, m, freshId);
              if stored.Err? then r == Err(stored.code) && facts == old(facts) && jobs == old(jobs)
              else r == Ok(stored.value.1) && facts == stored.value.0
                   && jobs == old(jobs)[stored.value.1 := stored.value.2]
    {
      hide Targets, Planned;
      if actor !in facts.allowed {
        return Err(Forbidden);
      }
      var anchor := chat;
      if d.group && actor in d.users {
        var known := PrivateChat(facts, actor);
        if known.Err? {
          return Err(known.code);
        }
        anchor := known.value;
      }
      var plan := MakePlan(d.cron, d.runAt, m.fires, m.now);
      if plan.Err? {
        return Err(plan.code);
      }
      if !ExpiryFits(d.expires, plan.value, m.now) {
        return Err(InvalidExpiry);
      }
      if d.script.Some? && !m.scriptGood {
        return Err(InvalidPrecheck);
      }
      var targets := ResolveTargets(facts, actor, actor in d.users, OthersWritten(d.users, actor), d.chats);
      if targets.Err? {
        return Err(targets.code);
      }
      var bad := Unchangeable(jobs, actor, d);
      if bad.Some? {
        return Err(bad.value);
      }
      if (d.job.None? || !jobs[d.job.value.0].enabled) && |ActiveOf(jobs, actor)| >= MAX_ACTIVE {
        return Err(TooManySchedules);
      }
      var (known, id, job) := Stored(facts, jobs, actor, chat, d, anchor, plan.value, targets.value, freshId);
      facts, jobs := known, jobs[id := job];
      r := Ok(id);
    }
  }
}
