/** In-flight AI requests: their tokens, the permits that bound how many run at once,
  * and the watchdog.
  */
module AiRegistry {
  import opened Wrappers

  /** Times are milliseconds. */
  const REAP_GRACE: nat := 5_000
  const AI_WATCHDOG_INTERVAL: nat := 60_000

  datatype Kind = TextGeneration | Translation | Embedding

  /** One slot of a backend's semaphore. */
  datatype Permit = Permit(kind: Kind, slot: nat)

  type RequestId = nat
  type Token = nat

  datatype Handle = Handle(deadline: nat, token: Token, permit: Option<Permit>)

  datatype Registry = Registry(handles: map<RequestId, Handle>, free: set<Permit>, cancelled: set<Token>)

  // --- What each call does ------------------------------------------------------------

  function PermitSet(p: Option<Permit>): set<Permit> {
    if p.Some? then {p.value} else {}
  }

  /** The permit a handle gives back when it is dropped. */
  function Held(r: Registry, id: RequestId): set<Permit> {
    if id in r.handles then PermitSet(r.handles[id].permit) else {}
  }

  predicate Expired(h: Handle, now: nat) {
    now >= h.deadline + REAP_GRACE
  }

  /** A reused id replaces its handle, which drops the old one's permit. */
  function Registered(r: Registry, id: RequestId, token: Token, deadline: nat): Registry {
    r.(handles := r.handles[id := Handle(deadline, token, None)], free := r.free + Held(r, id))
  }

  predicate Attachable(r: Registry, id: RequestId, now: nat) {
    id in r.handles && !Expired(r.handles[id], now)
  }

  function Attached(r: Registry, id: RequestId, permit: Option<Permit>): Registry
    requires id in r.handles
  {
    r.(handles := r.handles[id := r.handles[id].(permit := permit)], free := r.free + Held(r, id))
  }

  function Removed(r: Registry, id: RequestId): Registry {
    r.(handles := r.handles - {id}, free := r.free + Held(r, id))
  }

  function CancelledOne(r: Registry, id: RequestId): Registry {
    if id in r.handles then r.(cancelled := r.cancelled + {r.handles[id].token}) else r
  }

  function ExpiredIds(r: Registry, now: nat): set<RequestId> {
    set id | id in r.handles && Expired(r.handles[id], now)
  }

  function Reaped(r: Registry, now: nat): Registry {
    Registry(
      map id | id in r.handles && !Expired(r.handles[id], now) :: r.handles[id],
      r.free + (set id | id in r.handles && Expired(r.handles[id], now) && r.handles[id].permit.Some? :: r.handles[id].permit.value),
      r.cancelled + (set id | id in r.handles && Expired(r.handles[id], now) :: r.handles[id].token))
  }

  /** A sweep takes a handle exactly from five seconds after its deadline; until then the request keeps
    * its permit and its token stays as it is.
    */
  lemma SweptFromGraceOn(r: Registry, id: RequestId, now: nat)
    requires id in r.handles
    ensures now >= r.handles[id].deadline + 5_000 ==>
      && id !in Reaped(r, now).handles && r.handles[id].token in Reaped(r, now).cancelled
      && (r.handles[id].permit.Some? ==> r.handles[id].permit.value in Reaped(r, now).free)
    ensures now < r.handles[id].deadline + 5_000 ==>
      id in Reaped(r, now).handles && Reaped(r, now).handles[id] == r.handles[id]
    ensures Attachable(r, id, now) <==> now < r.handles[id].deadline + 5_000
  {
  }

  class AiRequestRegistry {
    var handles: map<RequestId, Handle>
    var free: set<Permit>
    var cancelled: set<Token>

    constructor (slots: set<Permit>)
      ensures View() == Registry(map[], slots, {})
    {
      handles, free, cancelled := map[], slots, {};
    }

    ghost function View(): Registry
      reads this
    {
      Registry(handles, free, cancelled)
    }

    /** Dropping a handle releases the permit it owns. */
    method Drop(id: RequestId)
      modifies this`handles, this`free
      ensures View() == Removed(old(View()), id)
    {
      if id in handles && handles[id].permit.Some? { free := free + {handles[id].permit.value}; }
      handles := handles - {id};
    }

    method Register(id: RequestId, token: Token, deadline: nat)
      modifies this
      ensures View() == Registered(old(View()), id, token, deadline)
    {
      Drop(id);
      handles := handles[id := Handle(deadline, token, None)];
    }

    /** Refuses, and hands the permit back, when the handle is gone or a sweep now would take it. */
    method AttachPermit(id: RequestId, permit: Option<Permit>, now: nat) returns (r: Result<(), Option<Permit>>)
      modifies this
      ensures r.Ok? <==> Attachable(old(View()), id, now)
      ensures r.Ok? ==> View() == Attached(old(View()), id, permit)
      ensures r.Err? ==> r.error == permit && View() == old(View())
    {
      if id !in handles { return Err(permit); }
      var h := handles[id];
      if now >= h.deadline + REAP_GRACE { return Err(permit); }
      if h.permit.Some? { free := free + {h.permit.value}; }
      handles := handles[id := h.(permit := permit)];
      r := Ok(());
    }

    method Remove(id: RequestId)
      modifies this
      ensures View() == Removed(old(View()), id)
    {
      Drop(id);
    }

    method Cancel(id: RequestId) returns (tracked: bool)
      modifies this
      ensures tracked == (id in old(handles)) && View() == CancelledOne(old(View()), id)
    {
      tracked := id in handles;
      if tracked { cancelled := cancelled + {handles[id].token}; }
    }

    method ReapExpired(now: nat) returns (reaped: nat)
      modifies this
      ensures View() == Reaped(old(View()), now)
      ensures reaped == |ExpiredIds(old(View()), now)|
    {
      ghost var was := View();
      var expired := set id | id in handles && now >= handles[id].deadline + REAP_GRACE;
      assert expired == ExpiredIds(was, now);
      reaped := |expired|;
      var left := expired;
      while left != {}
        invariant left <= expired && View() == DroppedAll(was, expired - left)
        decreases |left|
      {
        var id :| id in left;
        DropOne(was, expired - left, id);
        assert expired - left + {id} == expired - (left - {id});
        var token := handles[id].token;
        Drop(id);
        cancelled := cancelled + {token};
        left := left - {id};
      }
      assert expired - left == expired;
      DroppedExpired(was, now);
    }
  }

  /** The registry once the handles `ids` have been dropped and cancelled. */
  ghost function DroppedAll(r: Registry, ids: set<RequestId>): Registry {
    Registry(r.handles - ids, r.free + FreedBy(r, ids), r.cancelled + TokensOf(r, ids))
  }

  lemma DropOne(r: Registry, done: set<RequestId>, id: RequestId)
    requires id in r.handles && id !in done
    ensures id in DroppedAll(r, done).handles && DroppedAll(r, done).handles[id] == r.handles[id]
    ensures var next := Removed(DroppedAll(r, done), id);
      next.(cancelled := next.cancelled + {r.handles[id].token}) == DroppedAll(r, done + {id})
  {
  }

  lemma DroppedExpired(r: Registry, now: nat)
    ensures DroppedAll(r, ExpiredIds(r, now)) == Reaped(r, now)
  {
  }

  ghost function FreedBy(r: Registry, ids: set<RequestId>): set<Permit> {
    set id | id in ids && id in r.handles && r.handles[id].permit.Some? :: r.handles[id].permit.value
  }

  ghost function TokensOf(r: Registry, ids: set<RequestId>): set<Token> {
    set id | id in ids && id in r.handles :: r.handles[id].token
  }

  // --- Many callers, one clock -------------------------------------------------------------

  type HolderId = nat

  /** `hands` are the permits acquired and not yet attached or dropped. */
  datatype State = State(reg: Registry, hands: map<HolderId, Permit>, now: nat, lastSweep: nat)

  datatype Action =
    | Register(id: RequestId, token: Token, deadline: nat)
    | Acquire(h: HolderId, permit: Permit)
    | Attach(h: HolderId, id: RequestId)      // with no permit in hand, attaches none
    | DropPermit(h: HolderId)
    | Remove(id: RequestId)
    | Cancel(id: RequestId)
    | Reap
    | Tick(ms: nat)

  function InHand(s: State, h: HolderId): Option<Permit> {
    if h in s.hands then Some(s.hands[h]) else None
  }

  function Step(s: State, a: Action): State {
    match a
    case Register(id, token, deadline) => s.(reg := Registered(s.reg, id, token, deadline))
    case Acquire(h, p) =>
      if p in s.reg.free && h !in s.hands then s.(reg := s.reg.(free := s.reg.free - {p}), hands := s.hands[h := p]) else s
    case Attach(h, id) =>
      if Attachable(s.reg, id, s.now) then s.(reg := Attached(s.reg, id, InHand(s, h)), hands := s.hands - {h}) else s
    case DropPermit(h) =>
      s.(reg := s.reg.(free := s.reg.free + PermitSet(InHand(s, h))), hands := s.hands - {h})
    case Remove(id) => s.(reg := Removed(s.reg, id))
    case Cancel(id) => s.(reg := CancelledOne(s.reg, id))
    case Reap => s.(reg := Reaped(s.reg, s.now), lastSweep := s.now)
    case Tick(ms) => s.(now := s.now + ms)
  }

  function Run(s: State, actions: seq<Action>): State {
    if actions == [] then s else Step(Run(s, actions[..|actions| - 1]), actions[|actions| - 1])
  }

  ghost predicate Init(s: State, slots: set<Permit>) {
    s.reg == Registry(map[], slots, {}) && s.hands == map[] && s.lastSweep == s.now
  }

  // --- Conservation -----------------------------------------------------------------------------

  ghost predicate AttachedAt(s: State, p: Permit, id: RequestId) {
    id in s.reg.handles && s.reg.handles[id].permit == Some(p)
  }

  ghost predicate HandAt(s: State, p: Permit, h: HolderId) {
    h in s.hands && s.hands[h] == p
  }

  datatype Place = Free | AttachedTo(id: RequestId) | HandOf(h: HolderId)

  ghost predicate At(s: State, p: Permit, place: Place) {
    match place
    case Free => p in s.reg.free
    case AttachedTo(id) => AttachedAt(s, p, id)
    case HandOf(h) => HandAt(s, p, h)
  }

  /** Every permit is free, attached to one request, or in one hand, and in no second place. */
  ghost predicate OnePlace(s: State, p: Permit, place: Place) {
    At(s, p, place) && forall other :: At(s, p, other) ==> other == place
  }

  ghost predicate Conserved(s: State, slots: set<Permit>) {
    && (forall p :: p in slots ==> exists place :: OnePlace(s, p, place))
    && (forall p, place :: At(s, p, place) ==> p in slots)
  }

  /** Where a step takes the permit that is at `place`. */
  ghost function Next(s: State, a: Action, place: Place): Place {
    match place
    case Free =>
      (match a
       case Acquire(h, p) => if p in s.reg.free && h !in s.hands then HandOf(h) else Free
       case _ => Free)
    case AttachedTo(id) =>
      (match a
       case Register(x, _, _) => if x == id then Free else place
       case Attach(_, x) => if x == id && Attachable(s.reg, id, s.now) then Free else place
       case Remove(x) => if x == id then Free else place
       case Reap => if id in ExpiredIds(s.reg, s.now) then Free else place
       case _ => place)
    case HandOf(h) =>
      (match a
       case Attach(x, id) => if x == h && Attachable(s.reg, id, s.now) then AttachedTo(id) else place
       case DropPermit(x) => if x == h then Free else place
       case _ => place)
  }

  /** The place after a step, given the place before: only an acquired permit leaves the free set. */
  ghost function Follow(s: State, a: Action, p: Permit, place: Place): Place {
    if place.Free? && a.Acquire? && a.permit != p then Free else Next(s, a, place)
  }

  /** Whatever is free after a step was free, or was given back from where it was. */
  lemma FreedFrom(s: State, a: Action, p: Permit, place: Place)
    requires OnePlace(s, p, place) && p in Step(s, a).reg.free
    ensures Follow(s, a, p, place) == Free
  {
    if p in s.reg.free {
      assert At(s, p, Free);
    } else {
      match a {
        case Register(id, _, _) => assert At(s, p, AttachedTo(id));
        case Attach(h, id) => assert At(s, p, AttachedTo(id));
        case DropPermit(h) => assert At(s, p, HandOf(h));
        case Remove(id) => assert At(s, p, AttachedTo(id));
        case Reap =>
          var id :| id in s.reg.handles && Expired(s.reg.handles[id], s.now) && s.reg.handles[id].permit == Some(p);
          assert At(s, p, AttachedTo(id));
      }
    }
  }

  lemma AttachedFrom(s: State, a: Action, p: Permit, place: Place, id: RequestId)
    requires OnePlace(s, p, place) && AttachedAt(Step(s, a), p, id)
    ensures Follow(s, a, p, place) == AttachedTo(id)
  {
    if a.Attach? && a.id == id && Attachable(s.reg, id, s.now) {
      assert At(s, p, HandOf(a.h));
    } else {
      assert At(s, p, AttachedTo(id));
    }
  }

  lemma InHandFrom(s: State, a: Action, p: Permit, place: Place, h: HolderId)
    requires OnePlace(s, p, place) && HandAt(Step(s, a), p, h)
    ensures Follow(s, a, p, place) == HandOf(h)
  {
    if HandAt(s, p, h) {
      assert At(s, p, HandOf(h));
    } else {
      assert At(s, p, Free);
    }
  }

  /** A step takes each permit from its one place to its next. */
  lemma StepMoves(s: State, a: Action, p: Permit, place: Place)
    requires OnePlace(s, p, place)
    ensures OnePlace(Step(s, a), p, Follow(s, a, p, place))
  {
    var t, next := Step(s, a), Follow(s, a, p, place);
    forall other | At(t, p, other) ensures other == next {
      match other {
        case Free => FreedFrom(s, a, p, place);
        case AttachedTo(id) => AttachedFrom(s, a, p, place, id);
        case HandOf(h) => InHandFrom(s, a, p, place, h);
      }
    }
  }

  lemma StepConserves(s: State, a: Action, slots: set<Permit>)
    requires Conserved(s, slots)
    ensures Conserved(Step(s, a), slots)
  {
    var t := Step(s, a);
    forall p | p in slots ensures exists place :: OnePlace(t, p, place) {
      var place :| OnePlace(s, p, place);
      StepMoves(s, a, p, place);
    }
    forall p, place | At(t, p, place) ensures p in slots {
      NoneAppears(s, a, p, place);
    }
  }

  /** No step makes a permit out of nothing. */
  lemma NoneAppears(s: State, a: Action, p: Permit, place: Place)
    requires At(Step(s, a), p, place)
    ensures exists before :: At(s, p, before)
  {
    match place {
      case Free =>
        if p in s.reg.free {
          assert At(s, p, Free);
        } else {
          match a {
            case Register(id, _, _) => assert At(s, p, AttachedTo(id));
            case Attach(h, id) => assert At(s, p, AttachedTo(id));
            case DropPermit(h) => assert At(s, p, HandOf(h));
            case Remove(id) => assert At(s, p, AttachedTo(id));
            case Reap =>
              var id :| id in s.reg.handles && Expired(s.reg.handles[id], s.now) && s.reg.handles[id].permit == Some(p);
              assert At(s, p, AttachedTo(id));
          }
        }
      case AttachedTo(id) =>
        if a.Attach? && a.id == id && Attachable(s.reg, id, s.now) {
          assert At(s, p, HandOf(a.h));
        } else {
          assert At(s, p, AttachedTo(id));
        }
      case HandOf(h) =>
        if HandAt(s, p, h) { assert At(s, p, HandOf(h)); } else { assert At(s, p, Free); }
    }
  }

  /** Over every run, reused ids and refused attaches included, each permit of the pool is in
    * exactly one place, and nothing else ever passes for one.
    */
  lemma {:induction false} PermitsAreConserved(s: State, slots: set<Permit>, actions: seq<Action>)
    requires Init(s, slots)
    ensures Conserved(Run(s, actions), slots)
  {
    if actions == [] {
      forall p | p in slots ensures OnePlace(s, p, Free) {}
    } else {
      PermitsAreConserved(s, slots, actions[..|actions| - 1]);
      StepConserves(Run(s, actions[..|actions| - 1]), actions[|actions| - 1], slots);
    }
  }

  // --- Counting, per backend -------------------------------------------------------------------------

  ghost function FreeOf(s: State, kind: Kind): set<Permit> {
    set p | p in s.reg.free && p.kind == kind
  }

  ghost function AttachedOf(s: State, kind: Kind): set<RequestId> {
    set id | id in s.reg.handles && s.reg.handles[id].permit.Some? && s.reg.handles[id].permit.value.kind == kind
  }

  ghost function InHandsOf(s: State, kind: Kind): set<HolderId> {
    set h | h in s.hands && s.hands[h].kind == kind
  }

  /** What the keys `ids` hold, when no two hold the same. */
  lemma {:induction false} SameCount<K(!new)>(ids: set<K>, held: map<K, Permit>, image: set<Permit>)
    requires ids <= held.Keys
    requires forall a, b :: a in ids && b in ids && held[a] == held[b] ==> a == b
    requires image == set id | id in ids :: held[id]
    ensures |image| == |ids|
    decreases |ids|
  {
    if ids == {} {
      assert image == {};
    } else {
      var id :| id in ids;
      var rest := set x | x in ids - {id} :: held[x];
      SameCount(ids - {id}, held, rest);
      assert image == rest + {held[id]} && held[id] !in rest;
    }
  }

  lemma KindCounts(s: State, slots: set<Permit>, kind: Kind)
    requires Conserved(s, slots)
    ensures |FreeOf(s, kind)| + |AttachedOf(s, kind)| + |InHandsOf(s, kind)| == |set p | p in slots && p.kind == kind|
  {
    var handles := s.reg.handles;
    var attached := map id | id in AttachedOf(s, kind) :: handles[id].permit.value;
    var a := set id | id in AttachedOf(s, kind) :: attached[id];
    var h := set x | x in InHandsOf(s, kind) :: s.hands[x];
    forall x, y | x in AttachedOf(s, kind) && y in AttachedOf(s, kind) && attached[x] == attached[y] ensures x == y {
      var p := attached[x];
      assert At(s, p, AttachedTo(x)) && At(s, p, AttachedTo(y));
      var place :| OnePlace(s, p, place);
    }
    forall x, y | x in InHandsOf(s, kind) && y in InHandsOf(s, kind) && s.hands[x] == s.hands[y] ensures x == y {
      var p := s.hands[x];
      assert At(s, p, HandOf(x)) && At(s, p, HandOf(y));
      var place :| OnePlace(s, p, place);
    }
    SameCount(AttachedOf(s, kind), attached, a);
    SameCount(InHandsOf(s, kind), s.hands, h);
    ThreeWays(s, slots, kind, a, h);
  }

  lemma HeldAt(s: State, kind: Kind, a: set<Permit>, h: set<Permit>, p: Permit)
    requires a == set id | id in AttachedOf(s, kind) :: s.reg.handles[id].permit.value
    requires h == set x | x in InHandsOf(s, kind) :: s.hands[x]
    ensures p in a <==> p.kind == kind && exists id :: At(s, p, AttachedTo(id))
    ensures p in h <==> p.kind == kind && exists x :: At(s, p, HandOf(x))
  {
    if p in a {
      var id :| id in AttachedOf(s, kind) && s.reg.handles[id].permit.value == p;
      assert At(s, p, AttachedTo(id));
    }
    if p.kind == kind && exists id :: At(s, p, AttachedTo(id)) {
      var id :| At(s, p, AttachedTo(id));
      assert id in AttachedOf(s, kind);
    }
    if p in h {
      var x :| x in InHandsOf(s, kind) && s.hands[x] == p;
      assert At(s, p, HandOf(x));
    }
    if p.kind == kind && exists x :: At(s, p, HandOf(x)) {
      var x :| At(s, p, HandOf(x));
      assert x in InHandsOf(s, kind);
    }
  }

  /** A permit of the pool is in exactly one of the three groups. */
  lemma OneGroup(s: State, slots: set<Permit>, kind: Kind, a: set<Permit>, h: set<Permit>, p: Permit)
    requires Conserved(s, slots)
    requires a == set id | id in AttachedOf(s, kind) :: s.reg.handles[id].permit.value
    requires h == set x | x in InHandsOf(s, kind) :: s.hands[x]
    ensures p in slots && p.kind == kind <==> p in FreeOf(s, kind) || p in a || p in h
    ensures !(p in FreeOf(s, kind) && p in a) && !(p in FreeOf(s, kind) && p in h) && !(p in a && p in h)
  {
    HeldAt(s, kind, a, h, p);
    if p in slots {
      var place :| OnePlace(s, p, place);
    }
    if p in FreeOf(s, kind) { assert At(s, p, Free); }
  }

  lemma ThreeWays(s: State, slots: set<Permit>, kind: Kind, a: set<Permit>, h: set<Permit>)
    requires Conserved(s, slots)
    requires a == set id | id in AttachedOf(s, kind) :: s.reg.handles[id].permit.value
    requires h == set x | x in InHandsOf(s, kind) :: s.hands[x]
    ensures |FreeOf(s, kind)| + |a| + |h| == |set p | p in slots && p.kind == kind|
  {
    var f, all := FreeOf(s, kind), set p | p in slots && p.kind == kind;
    forall p ensures Partitions(all, f, a, h, p) { OneGroup(s, slots, kind, a, h, p); }
    CountThree(all, f, a, h);
  }

  /** An element of the whole is in exactly one of the three parts. */
  ghost predicate Partitions<T>(all: set<T>, f: set<T>, a: set<T>, h: set<T>, p: T) {
    && (p in all <==> p in f || p in a || p in h)
    && !(p in f && p in a) && !(p in f && p in h) && !(p in a && p in h)
  }

  lemma CountThree<T(!new)>(all: set<T>, f: set<T>, a: set<T>, h: set<T>)
    requires forall p :: Partitions(all, f, a, h, p)
    ensures |f| + |a| + |h| == |all|
  {
    forall p ensures p in all <==> p in f + a + h { assert Partitions(all, f, a, h, p); }
    assert all == f + a + h;
    forall p | p in f ensures p !in a && p !in h { assert Partitions(all, f, a, h, p); }
    forall p | p in a ensures p !in h { assert Partitions(all, f, a, h, p); }
    assert f !! a && (f + a) !! h;
  }

  /** Free, attached and in-hand permits add up to the backend's capacity after every run. */
  lemma CapacityIsConstant(s: State, slots: set<Permit>, actions: seq<Action>, kind: Kind)
    requires Init(s, slots)
    ensures var now := Run(s, actions);
      |FreeOf(now, kind)| + |AttachedOf(now, kind)| + |InHandsOf(now, kind)| == |set p | p in slots && p.kind == kind|
  {
    PermitsAreConserved(s, slots, actions);
    KindCounts(Run(s, actions), slots, kind);
  }

  // --- Attach against reap, and the clock --------------------------------------------------------------

  /** An attach succeeds exactly on a handle that a sweep at that instant would leave alone. */
  lemma AttachNeverRacesReap(s: State, h: HolderId, id: RequestId)
    ensures Attachable(s.reg, id, s.now) <==> id in Step(s, Reap).reg.handles
    ensures Attachable(s.reg, id, s.now) ==>
      var t := Step(s, Attach(h, id)); id in Step(t, Reap).reg.handles && Step(t, Reap).reg.handles[id] == t.reg.handles[id]
    ensures !Attachable(s.reg, id, s.now) ==> Step(s, Attach(h, id)) == s
  {
  }

  /** A sweep cancels the token of every request it takes, and takes only expired ones. */
  lemma ReapedTokensAreCancelled(s: State, id: RequestId)
    requires id in s.reg.handles
    ensures id !in Step(s, Reap).reg.handles <==> Expired(s.reg.handles[id], s.now)
    ensures id !in Step(s, Reap).reg.handles ==> s.reg.handles[id].token in Step(s, Reap).reg.cancelled
    ensures s.reg.cancelled <= Step(s, Reap).reg.cancelled
  {
  }

  /** The watchdog keeps its interval: the clock never runs further past the last sweep. */
  ghost predicate SweptInTime(s: State, actions: seq<Action>) {
    forall i :: 0 <= i <= |actions| ==>
      Run(s, actions[..i]).now <= Run(s, actions[..i]).lastSweep + AI_WATCHDOG_INTERVAL
  }

  /** No attached permit was already due when the last sweep ran. */
  ghost predicate DueAfterSweep(s: State) {
    && s.lastSweep <= s.now
    && forall id :: id in s.reg.handles && s.reg.handles[id].permit.Some? ==>
         s.lastSweep < s.reg.handles[id].deadline + REAP_GRACE
  }

  lemma {:induction false} RunKeepsDue(s: State, slots: set<Permit>, actions: seq<Action>)
    requires Init(s, slots)
    ensures DueAfterSweep(Run(s, actions))
  {
    if actions != [] {
      RunKeepsDue(s, slots, actions[..|actions| - 1]);
    }
  }

  /** With sweeps at most a minute apart, a permit is attached only until its request's deadline
    * plus 65 seconds, whether or not anyone ever polls or drops the stream.
    */
  lemma PermitsComeBack(s: State, slots: set<Permit>, actions: seq<Action>, id: RequestId)
    requires Init(s, slots) && SweptInTime(s, actions)
    requires var now := Run(s, actions); id in now.reg.handles && now.reg.handles[id].permit.Some?
    ensures Run(s, actions).now < Run(s, actions).reg.handles[id].deadline + 65_000
  {
    RunKeepsDue(s, slots, actions);
    assert actions[..|actions|] == actions;
  }
}
