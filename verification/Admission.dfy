/**
 Admission of concurrent sessions: `Admit` counts a request before its session exists, `Register`
 makes the session live, `Unregister` takes both back.  The counters are exact but for requests
 that are admitted and then never become a session.
 */
module Admission {

  /** The two fields of a session that admission looks at. */
  datatype Owner = Owner(ip: string, key: string)

  /** The runtime limits, 0 for none. */
  datatype Limits = Limits(maxActive: int, maxPerIp: int, maxPerKey: int)

  datatype Verdict = Allowed | RefusedGlobal | RefusedIp | RefusedKey

  datatype Registry = Registry(live: map<string, Owner>, perIp: map<string, int>, perKey: map<string, int>)

  function CountOf(m: map<string, int>, k: string): int {
    if k in m then m[k] else 0
  }

  function KeyLimit(limits: Limits, keyMax: int): int {
    if keyMax > 0 then keyMax else limits.maxPerKey
  }

  function AdmitVerdict(r: Registry, limits: Limits, o: Owner, keyMax: int): Verdict {
    if limits.maxActive > 0 && |r.live| >= limits.maxActive then RefusedGlobal
    else if limits.maxPerIp > 0 && o.ip != "" && CountOf(r.perIp, o.ip) >= limits.maxPerIp then RefusedIp
    else if KeyLimit(limits, keyMax) > 0 && o.key != ""
      && CountOf(r.perKey, o.key) >= KeyLimit(limits, keyMax) then RefusedKey
    else Allowed
  }

  function Bump(m: map<string, int>, k: string): map<string, int> {
    m[k := CountOf(m, k) + 1]
  }

  function Lower(m: map<string, int>, k: string): map<string, int> {
    if k != "" && CountOf(m, k) > 0 then m[k := m[k] - 1] else m
  }

  function Admitted(r: Registry, o: Owner): Registry {
    r.(perIp := Bump(r.perIp, o.ip), perKey := Bump(r.perKey, o.key))
  }

  function Unregistered(r: Registry, id: string): Registry {
    if id in r.live then
      Registry(r.live - {id}, Lower(r.perIp, r.live[id].ip), Lower(r.perKey, r.live[id].key))
    else r
  }

  class Manager {
    var live: map<string, Owner>
    var perIP: map<string, int>
    var perKey: map<string, int>
    var totalReq: nat

    function View(): Registry
      reads this
    {
      Registry(live, perIP, perKey)
    }

    constructor ()
      ensures View() == Registry(map[], map[], map[]) && totalReq == 0
    {
      live, perIP, perKey, totalReq := map[], map[], map[], 0;
    }

    method Admit(limits: Limits, ip: string, keyFP: string, keyMax: int) returns (v: Verdict)
      modifies this`perIP, this`perKey
      ensures v == AdmitVerdict(old(View()), limits, Owner(ip, keyFP), keyMax)
      ensures View() == if v == Allowed then Admitted(old(View()), Owner(ip, keyFP)) else old(View())
    {
      if limits.maxActive > 0 && |live| >= limits.maxActive {
        return RefusedGlobal;
      }
      if limits.maxPerIp > 0 && ip != "" {
        if CountOf(perIP, ip) >= limits.maxPerIp {
          return RefusedIp;
        }
      }
      var perKeyLimit := limits.maxPerKey;
      if keyMax > 0 {
        perKeyLimit := keyMax;
      }
      if perKeyLimit > 0 && keyFP != "" {
        if CountOf(perKey, keyFP) >= perKeyLimit {
          return RefusedKey;
        }
      }
      perIP := perIP[ip := CountOf(perIP, ip) + 1];
      perKey := perKey[keyFP := CountOf(perKey, keyFP) + 1];
      return Allowed;
    }

    method Register(id: string, o: Owner)
      modifies this`live, this`totalReq
      ensures View() == old(View()).(live := old(live)[id := o]) && totalReq == old(totalReq) + 1
    {
      live := live[id := o];
      totalReq := totalReq + 1;
    }

    method Unregister(id: string)
      modifies this`live, this`perIP, this`perKey
      ensures View() == Unregistered(old(View()), id)
    {
      if id in live {
        var s := live[id];
        live := live - {id};
        if s.ip != "" && CountOf(perIP, s.ip) > 0 {
          perIP := perIP[s.ip := perIP[s.ip] - 1];
        }
        if s.key != "" && CountOf(perKey, s.key) > 0 {
          perKey := perKey[s.key := perKey[s.key] - 1];
        }
      }
    }
  }

  // ---------- requests in any interleaving ----------

  /** Requests between their admission and their session, sessions, and the requests that ended
      in between; `used` are the session ids handed out so far. */
  datatype System = System(reg: Registry, inFlight: seq<Owner>, abandoned: seq<Owner>, used: set<string>)

  datatype Event =
    | Admit(o: Owner, keyMax: int)
    | Create(i: nat, id: string)      // the i-th request in flight becomes session `id`
    | Abandon(i: nat)                 // the i-th request in flight ends without a session
    | Unregister(id: string)

  function Without<T>(s: seq<T>, i: nat): seq<T>
    requires i < |s|
  {
    s[..i] + s[i + 1..]
  }

  function Step(limits: Limits, s: System, e: Event): System {
    match e
    case Admit(o, keyMax) =>
      if AdmitVerdict(s.reg, limits, o, keyMax) == Allowed then
        s.(reg := Admitted(s.reg, o), inFlight := s.inFlight + [o])
      else s
    case Create(i, id) =>
      if i < |s.inFlight| && id != "" && id !in s.used then
        System(s.reg.(live := s.reg.live[id := s.inFlight[i]]), Without(s.inFlight, i), s.abandoned, s.used + {id})
      else s
    case Abandon(i) =>
      if i < |s.inFlight| then s.(inFlight := Without(s.inFlight, i), abandoned := s.abandoned + [s.inFlight[i]]) else s
    case Unregister(id) => s.(reg := Unregistered(s.reg, id))
  }

  function Execute(limits: Limits, s: System, es: seq<Event>): System
    decreases |es|
  {
    if es == [] then s else Execute(limits, Step(limits, s, es[0]), es[1..])
  }

  const EMPTY := System(Registry(map[], map[], map[]), [], [], {})

  /** Which of the two counted fields is meant. */
  datatype Field = Ip | Key

  function Get(f: Field, o: Owner): string {
    if f == Ip then o.ip else o.key
  }

  function Counter(f: Field, r: Registry, k: string): int {
    if f == Ip then CountOf(r.perIp, k) else CountOf(r.perKey, k)
  }

  function LiveIds(f: Field, r: Registry, k: string): set<string> {
    set id | id in r.live && Get(f, r.live[id]) == k
  }

  function Tally(f: Field, os: seq<Owner>, k: string): nat {
    if os == [] then 0 else (if Get(f, os[0]) == k then 1 else 0) + Tally(f, os[1..], k)
  }

  lemma {:induction false} TallyConcat(f: Field, a: seq<Owner>, b: seq<Owner>, k: string)
    ensures Tally(f, a + b, k) == Tally(f, a, k) + Tally(f, b, k)
  {
    if a == [] {
      assert a + b == b;
    } else {
      assert (a + b)[1..] == a[1..] + b;
      TallyConcat(f, a[1..], b, k);
    }
  }

  lemma TallyOne(f: Field, o: Owner, k: string)
    ensures Tally(f, [o], k) == if Get(f, o) == k then 1 else 0
  {
    assert [o][1..] == [];
  }

  lemma TallyWithout(f: Field, os: seq<Owner>, i: nat, k: string)
    requires i < |os|
    ensures Tally(f, os, k) == Tally(f, Without(os, i), k) + if Get(f, os[i]) == k then 1 else 0
  {
    assert os == os[..i] + ([os[i]] + os[i + 1..]);
    TallyConcat(f, os[..i], [os[i]] + os[i + 1..], k);
    TallyConcat(f, [os[i]], os[i + 1..], k);
    TallyConcat(f, os[..i], os[i + 1..], k);
    TallyOne(f, os[i], k);
  }

  /** The counter of a name: its live sessions, its requests in flight, and its abandoned ones. */
  ghost predicate Conserved(f: Field, s: System, k: string) {
    Counter(f, s.reg, k) == |LiveIds(f, s.reg, k)| + Tally(f, s.inFlight, k) + Tally(f, s.abandoned, k)
  }

  ghost predicate IdsUsed(s: System) {
    s.reg.live.Keys <= s.used && "" !in s.used
  }

  lemma CreateConserved(f: Field, s: System, i: nat, id: string, k: string)
    requires Conserved(f, s, k) && IdsUsed(s) && i < |s.inFlight| && id !in s.used
    ensures var r' := s.reg.(live := s.reg.live[id := s.inFlight[i]]);
            Conserved(f, s.(reg := r', inFlight := Without(s.inFlight, i)), k)
  {
    var r' := s.reg.(live := s.reg.live[id := s.inFlight[i]]);
    TallyWithout(f, s.inFlight, i, k);
    assert id !in s.reg.live;
    if Get(f, s.inFlight[i]) == k {
      assert LiveIds(f, r', k) == LiveIds(f, s.reg, k) + {id};
    } else {
      assert LiveIds(f, r', k) == LiveIds(f, s.reg, k);
    }
  }

  /** The counter of a live session's name is positive, so the guard in `Unregister` never bites. */
  lemma UnregisterConserved(f: Field, s: System, id: string, k: string)
    requires Conserved(f, s, k) && k != "" && id in s.reg.live
    ensures Conserved(f, s.(reg := Unregistered(s.reg, id)), k)
    ensures Get(f, s.reg.live[id]) == k ==> Counter(f, s.reg, k) > 0
  {
    var r' := Unregistered(s.reg, id);
    if Get(f, s.reg.live[id]) == k {
      assert id in LiveIds(f, s.reg, k);
      assert LiveIds(f, r', k) == LiveIds(f, s.reg, k) - {id};
    } else {
      assert LiveIds(f, r', k) == LiveIds(f, s.reg, k);
    }
  }

  lemma AdmitConserved(f: Field, s: System, o: Owner, k: string)
    requires Conserved(f, s, k)
    ensures Conserved(f, s.(reg := Admitted(s.reg, o), inFlight := s.inFlight + [o]), k)
  {
    TallyConcat(f, s.inFlight, [o], k);
    TallyOne(f, o, k);
    assert LiveIds(f, Admitted(s.reg, o), k) == LiveIds(f, s.reg, k);
  }

  lemma StepConserved(limits: Limits, f: Field, s: System, e: Event, k: string)
    requires Conserved(f, s, k) && IdsUsed(s) && k != ""
    ensures Conserved(f, Step(limits, s, e), k) && IdsUsed(Step(limits, s, e))
  {
    match e
    case Admit(o, keyMax) => AdmitConserved(f, s, o, k);
    case Create(i, id) =>
      if i < |s.inFlight| && id != "" && id !in s.used {
        CreateConserved(f, s, i, id, k);
      }
    case Abandon(i) =>
      if i < |s.inFlight| {
        TallyWithout(f, s.inFlight, i, k);
        TallyConcat(f, s.abandoned, [s.inFlight[i]], k);
        TallyOne(f, s.inFlight[i], k);
      }
    case Unregister(id) =>
      if id in s.reg.live {
        UnregisterConserved(f, s, id, k);
      }
  }

  /** Conservation in every interleaving. */
  lemma {:induction false} ConservedRun(limits: Limits, f: Field, s: System, es: seq<Event>, k: string)
    requires Conserved(f, s, k) && IdsUsed(s) && k != ""
    ensures Conserved(f, Execute(limits, s, es), k) && IdsUsed(Execute(limits, s, es))
    decreases |es|
  {
    if es != [] {
      StepConserved(limits, f, s, es[0], k);
      ConservedRun(limits, f, Step(limits, s, es[0]), es[1..], k);
    }
  }

  lemma EmptyConserved(f: Field, k: string)
    ensures Conserved(f, EMPTY, k) && IdsUsed(EMPTY)
  {
    assert LiveIds(f, EMPTY.reg, k) == {};
  }

  /** When no session is live and no request in flight, a counter is back at zero exactly when no
      request of its name was abandoned. */
  lemma BalancedExactly(limits: Limits, f: Field, es: seq<Event>, k: string)
    requires k != "" && var s := Execute(limits, EMPTY, es); s.reg.live == map[] && s.inFlight == []
    ensures var s := Execute(limits, EMPTY, es);
            Counter(f, s.reg, k) == 0 <==> forall i :: 0 <= i < |s.abandoned| ==> Get(f, s.abandoned[i]) != k
  {
    var s := Execute(limits, EMPTY, es);
    EmptyConserved(f, k);
    ConservedRun(limits, f, EMPTY, es, k);
    assert LiveIds(f, s.reg, k) == {};
    TallyZero(f, s.abandoned, k);
  }

  lemma {:induction false} TallyZero(f: Field, os: seq<Owner>, k: string)
    ensures Tally(f, os, k) == 0 <==> forall i :: 0 <= i < |os| ==> Get(f, os[i]) != k
  {
    if os != [] {
      TallyZero(f, os[1..], k);
      assert forall i :: 1 <= i < |os| ==> os[i] == os[1..][i - 1];
    }
  }

  lemma UnregisterTwice(r: Registry, id: string)
    ensures Unregistered(Unregistered(r, id), id) == Unregistered(r, id)
    ensures id !in r.live ==> Unregistered(r, id) == r
  {
  }

  // ---------- the limits ----------

  /** `top` bounds the limit every request of the name is checked against: an address has one limit,
      the requests of a key may each bring their own. */
  ghost predicate LimitedBy(limits: Limits, f: Field, es: seq<Event>, k: string, top: nat) {
    if f == Ip then limits.maxPerIp == top > 0
    else forall i :: 0 <= i < |es| && es[i].Admit? && es[i].o.key == k ==> 0 < KeyLimit(limits, es[i].keyMax) <= top
  }

  lemma {:induction false} CounterLimited(limits: Limits, f: Field, s: System, es: seq<Event>, k: string, top: nat)
    requires k != "" && LimitedBy(limits, f, es, k, top) && Counter(f, s.reg, k) <= top
    ensures Counter(f, Execute(limits, s, es).reg, k) <= top
    decreases |es|
  {
    if es != [] {
      assert f == Key && es[0].Admit? && es[0].o.key == k ==> 0 < KeyLimit(limits, es[0].keyMax) <= top;
      CounterLimited(limits, f, Step(limits, s, es[0]), es[1..], k, top);
    }
  }

  /** Live sessions, requests in flight and abandoned requests of a name never exceed its limit. */
  lemma NameLimit(limits: Limits, f: Field, es: seq<Event>, k: string, top: nat)
    requires k != "" && LimitedBy(limits, f, es, k, top)
    ensures var s := Execute(limits, EMPTY, es);
            |LiveIds(f, s.reg, k)| + Tally(f, s.inFlight, k) + Tally(f, s.abandoned, k) <= top
  {
    EmptyConserved(f, k);
    ConservedRun(limits, f, EMPTY, es, k);
    CounterLimited(limits, f, EMPTY, es, k, top);
  }

  /** So an address keeps its limit in every run, whatever keys its requests bring. */
  lemma AddressLimit(limits: Limits, es: seq<Event>, ip: string)
    requires ip != "" && limits.maxPerIp > 0
    ensures var s := Execute(limits, EMPTY, es);
            |LiveIds(Ip, s.reg, ip)| + Tally(Ip, s.inFlight, ip) + Tally(Ip, s.abandoned, ip) <= limits.maxPerIp
  {
    NameLimit(limits, Ip, es, ip, limits.maxPerIp);
  }

  // ---------- who is admitted ----------

  /** What a name holds of its limit: live sessions, requests in flight, abandoned requests. */
  ghost function Held(f: Field, s: System, k: string): nat {
    |LiveIds(f, s.reg, k)| + Tally(f, s.inFlight, k) + Tally(f, s.abandoned, k)
  }

  /** A limit of 0 or less is none, and an empty name has none. */
  ghost predicate Full(f: Field, s: System, k: string, limit: int) {
    limit > 0 && k != "" && Held(f, s, k) >= limit
  }

  /** In every run: a request is admitted if and only if there is room among the live sessions, for its
      address and for its key, whose own maximum, when positive, replaces the general one.  Otherwise
      the first full limit in the order global, address, key is the one answered, and nothing changes. */
  lemma AdmittedExactly(limits: Limits, es: seq<Event>, o: Owner, keyMax: int)
    ensures var s := Execute(limits, EMPTY, es);
            var v, s' := AdmitVerdict(s.reg, limits, o, keyMax), Step(limits, s, Admit(o, keyMax));
            var everywhere := limits.maxActive > 0 && |s.reg.live| >= limits.maxActive;
            var address := Full(Ip, s, o.ip, limits.maxPerIp);
            var key := Full(Key, s, o.key, if keyMax > 0 then keyMax else limits.maxPerKey);
            && (v == Allowed <==> !everywhere && !address && !key)
            && (v == RefusedGlobal <==> everywhere)
            && (v == RefusedIp <==> !everywhere && address)
            && (v == RefusedKey <==> !everywhere && !address && key)
            && (v == Allowed ==> s'.inFlight == s.inFlight + [o] && s'.reg.live == s.reg.live)
            && (v != Allowed ==> s' == s)
  {
    HeldInRun(limits, Ip, es, o.ip);
    HeldInRun(limits, Key, es, o.key);
  }

  lemma HeldInRun(limits: Limits, f: Field, es: seq<Event>, k: string)
    ensures var s := Execute(limits, EMPTY, es); k != "" ==> Counter(f, s.reg, k) == Held(f, s, k)
  {
    if k != "" {
      EmptyConserved(f, k);
      ConservedRun(limits, f, EMPTY, es, k);
    }
  }

  /** A limit of one session for each address: the first request of an address is admitted, a second
      one beside it is refused, and it is admitted once the session of the first is over. */
  lemma OneAtATime(limits: Limits, o: Owner, id: string)
    requires limits == Limits(0, 1, 0) && o.ip != "" && id != ""
    ensures AdmitVerdict(EMPTY.reg, limits, o, 0) == Allowed
    ensures AdmitVerdict(Execute(limits, EMPTY, [Admit(o, 0)]).reg, limits, o, 0) == RefusedIp
    ensures AdmitVerdict(Execute(limits, EMPTY, [Admit(o, 0), Create(0, id), Unregister(id)]).reg, limits, o, 0)
            == Allowed
  {
    var s := Step(limits, EMPTY, Admit(o, 0));
    var s' := Step(limits, s, Create(0, id));
    assert [Admit(o, 0)][1..] == [];
    OneOver(limits, o, id, s');
    ExecuteFirst(limits, s', Unregister(id), []);
    ExecuteFirst(limits, s, Create(0, id), [Unregister(id)]);
    ExecuteFirst(limits, EMPTY, Admit(o, 0), [Create(0, id), Unregister(id)]);
  }

  lemma ExecuteFirst(limits: Limits, s: System, e: Event, es: seq<Event>)
    ensures Execute(limits, s, [e] + es) == Execute(limits, Step(limits, s, e), es)
  {
    assert ([e] + es)[1..] == es;
  }

  lemma OneOver(limits: Limits, o: Owner, id: string, s: System)
    requires limits == Limits(0, 1, 0) && id in s.reg.live && s.reg.live[id] == o && CountOf(s.reg.perIp, o.ip) == 1
    ensures AdmitVerdict(Step(limits, s, Unregister(id)).reg, limits, o, 0) == Allowed
  {
    var r := Unregistered(s.reg, id);
    assert CountOf(r.perIp, o.ip) <= 1;
    if o.ip != "" {
      assert CountOf(r.perIp, o.ip) == 0;
    }
  }

  /** At most `bound` requests are in flight at any time of the run. */
  ghost predicate FewInFlight(limits: Limits, s: System, es: seq<Event>, bound: nat)
    decreases |es|
  {
    |s.inFlight| <= bound && (es == [] || FewInFlight(limits, Step(limits, s, es[0]), es[1..], bound))
  }

  /** The global limit looks only at live sessions, so requests in flight can push past it. */
  lemma {:induction false} GlobalLimit(limits: Limits, s: System, es: seq<Event>, bound: nat)
    requires limits.maxActive > 0 && bound >= 1 && FewInFlight(limits, s, es, bound)
    requires |s.reg.live| + |s.inFlight| <= limits.maxActive + bound - 1
    ensures var s' := Execute(limits, s, es); |s'.reg.live| + |s'.inFlight| <= limits.maxActive + bound - 1
    decreases |es|
  {
    if es != [] {
      var s' := Step(limits, s, es[0]);
      if es[0].Create? && es[0].id in s.reg.live {
        assert s'.reg.live.Keys <= s.reg.live.Keys + {es[0].id};
      }
      LiveStep(limits, s, es[0]);
      GlobalLimit(limits, s', es[1..], bound);
    }
  }

  lemma LiveStep(limits: Limits, s: System, e: Event)
    ensures var s' := Step(limits, s, e);
            if e.Admit? then |s'.reg.live| == |s.reg.live|
              && (s' == s || |s.reg.live| < limits.maxActive || limits.maxActive <= 0)
            else |s'.reg.live| + |s'.inFlight| <= |s.reg.live| + |s.inFlight|
  {
    match e
    case Create(i, id) => if i < |s.inFlight| { LiveGrows(s.reg.live, id, s.inFlight[i]); }
    case Unregister(id) => LiveShrinks(s.reg.live, id);
    case _ =>
  }

  lemma LiveGrows(live: map<string, Owner>, id: string, o: Owner)
    ensures |live[id := o]| <= |live| + 1
  {
    assert live[id := o].Keys == live.Keys + {id};
  }

  lemma LiveShrinks(live: map<string, Owner>, id: string)
    ensures |live - {id}| <= |live|
  {
    assert (live - {id}).Keys == live.Keys - {id};
  }

  // ---------- the bound is reached ----------

  function Burst(o: Owner, k: nat): seq<Event> {
    if k == 0 then [] else [Admit(o, 0)] + Burst(o, k - 1)
  }

  lemma {:induction false} ExecuteConcat(limits: Limits, s: System, es: seq<Event>, fs: seq<Event>)
    ensures Execute(limits, s, es + fs) == Execute(limits, Execute(limits, s, es), fs)
    decreases |es|
  {
    if es == [] {
      assert es + fs == fs;
    } else {
      assert (es + fs)[1..] == es[1..] + fs;
      ExecuteConcat(limits, Step(limits, s, es[0]), es[1..], fs);
    }
  }

  /** Any number of requests is admitted while the live sessions stay below the limit. */
  lemma {:induction false} BurstAdmitted(limits: Limits, s: System, o: Owner, k: nat)
    requires limits.maxPerIp <= 0 && limits.maxPerKey <= 0 && (limits.maxActive <= 0 || |s.reg.live| < limits.maxActive)
    ensures var s' := Execute(limits, s, Burst(o, k)); s'.reg.live == s.reg.live && |s'.inFlight| == |s.inFlight| + k
    decreases k
  {
    if k > 0 {
      var t := Step(limits, s, Admit(o, 0));
      assert t.reg.live == s.reg.live && |t.inFlight| == |s.inFlight| + 1;
      assert Burst(o, k)[1..] == Burst(o, k - 1);
      BurstAdmitted(limits, t, o, k - 1);
    }
  }

  // ---------- abandoned requests ----------

  lemma {:induction false} AbandonedGrows(limits: Limits, s: System, es: seq<Event>)
    ensures s.abandoned <= Execute(limits, s, es).abandoned
    decreases |es|
  {
    if es != [] {
      AbandonedGrows(limits, Step(limits, s, es[0]), es[1..]);
    }
  }

  lemma TallyPrefix(f: Field, a: seq<Owner>, b: seq<Owner>, k: string)
    requires a <= b
    ensures Tally(f, a, k) <= Tally(f, b, k)
  {
    assert b == a + b[|a|..];
    TallyConcat(f, a, b[|a|..], k);
  }

  /** Once as many requests of an address were abandoned as it may have sessions, every later request
      of that address is refused, for good, however few sessions are live. */
  lemma LockedOut(limits: Limits, es: seq<Event>, fs: seq<Event>, o: Owner, keyMax: int)
    requires limits.maxPerIp > 0 && o.ip != ""
    requires Tally(Ip, Execute(limits, EMPTY, es).abandoned, o.ip) >= limits.maxPerIp
    ensures AdmitVerdict(Execute(limits, EMPTY, es + fs).reg, limits, o, keyMax) != Allowed
  {
    var s := Execute(limits, EMPTY, es);
    var s' := Execute(limits, EMPTY, es + fs);
    ExecuteConcat(limits, EMPTY, es, fs);
    AbandonedGrows(limits, s, fs);
    TallyPrefix(Ip, s.abandoned, s'.abandoned, o.ip);
    EmptyConserved(Ip, o.ip);
    ConservedRun(limits, Ip, EMPTY, es + fs, o.ip);
  }
}
