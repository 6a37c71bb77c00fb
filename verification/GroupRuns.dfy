/**
 * Whole runs of a group: honest members' managers, members that send whatever they
 * can make, and a network that delivers any message any number of times.
 */
module GroupRuns {
  import opened Keys
  import opened SkippedKeys
  import opened SenderKey
  import opened GroupSession
  import opened Group

  /** A distribution over the pair's 1:1 session, which vouches for who sent it. */
  datatype Mail = Mail(from: nat, peer: nat, skd: Skd)

  /** What the owner decided for one epoch of its group. */
  datatype EpochOf = EpochOf(roster: seq<nat>, secret: nat)

  /**
   * `ledger` records every epoch an honest owner created; `known` and `macs` are the
   * group secrets and roster MACs in the hands of dishonest members.
   */
  datatype Sys = Sys(honest: set<nat>, managers: map<nat, Manager>, ledger: map<(Gk, nat), EpochOf>,
                     mail: set<Mail>, known: set<nat>, macs: set<RosterMac>)

  datatype Event =
    | CreateEvent(p: nat, gk: Gk, roster: seq<nat>, secret: nat, chain: Key)
    | RekeyEvent(p: nat, gid: Gid, roster: seq<nat>, secret: nat, chain: Key)
    | DeleteEvent(p: nat, gid: Gid, secret: nat, chain: Key)
    | DropEvent(p: nat, gid: Gid)
    | SayEvent(p: nat, gid: Gid, text: string)
    | HandOverEvent(p: nat, gid: Gid, peer: nat)
    | DeliverEvent(mail: Mail, chain: Key)
    | InjectEvent(mail: Mail)

  /** A secret nobody has seen: not in dishonest hands, not used for an epoch before. */
  ghost predicate Unseen(s: Sys, secret: nat) {
    secret !in s.known && forall k :: k in s.ledger ==> s.ledger[k].secret != secret
  }

  /** Roster MACs a dishonest member can produce: seen ones, those for a key or an addressee of its own, and garbage. */
  predicate CanMake(s: Sys, mac: RosterMac) {
    mac.BadMac? || mac in s.macs || mac.gk.owner !in s.honest || mac.member !in s.honest
  }

  predicate Owns(s: Sys, p: nat, gid: Gid) {
    p in s.managers && gid in s.managers[p].recs && s.managers[p].recs[gid].holdsGk
  }

  /** Rekeying is the admin's, which keeps itself first on its rosters; a dishonest member says only what it knows. */
  ghost predicate Possible(s: Sys, e: Event) {
    match e
    case CreateEvent(p, gk, roster, secret, _) =>
      && p in s.honest && gk.owner == p && [p] <= roster && Unseen(s, secret)
      && forall n: nat :: (gk, n) !in s.ledger
    case RekeyEvent(p, gid, roster, secret, _) => p in s.honest && Owns(s, p, gid) && [p] <= roster && Unseen(s, secret)
    case DeleteEvent(p, _, secret, _) => p in s.honest && Unseen(s, secret)
    case DropEvent(p, _) => p in s.honest
    case SayEvent(p, _, _) => p in s.honest
    case HandOverEvent(p, _, _) => p in s.honest
    case DeliverEvent(mail, _) => mail in s.mail && mail.peer in s.honest
    case InjectEvent(mail) =>
      && mail.from !in s.honest && mail.skd.secret in s.known
      && (mail.skd.rmac.Some? ==> CanMake(s, mail.skd.rmac.value))
  }

  function WithManager(s: Sys, p: nat, m: Manager): Sys {
    s.(managers := s.managers[p := m])
  }

  function Noted(s: Sys, gk: Gk, epoch: nat, roster: seq<nat>, secret: nat): Sys {
    s.(ledger := s.ledger[(gk, epoch) := EpochOf(roster, secret)])
  }

  /** Mail to a dishonest member is read by it. */
  function Posted(s: Sys, mail: Mail): Sys {
    var t := s.(mail := s.mail + {mail});
    if mail.peer in s.honest then t
    else t.(known := s.known + {mail.skd.secret},
            macs := s.macs + (if mail.skd.rmac.Some? then {mail.skd.rmac.value} else {}))
  }

  /** The owner's epoch as the ledger will have it after a rekey of this record. */
  function Rekeyed(s: Sys, p: nat, gid: Gid, roster: seq<nat>, secret: nat, chain: Key): Sys
    requires p in s.managers && gid in s.managers[p].recs
  {
    var r := s.managers[p].recs[gid];
    Noted(WithManager(s, p, Rekey(s.managers[p], gid, roster, secret, chain)), r.gkPub, r.epoch + 1, roster, secret)
  }

  function Step(s: Sys, e: Event): Sys {
    match e
    case CreateEvent(p, gk, roster, secret, chain) =>
      if p in s.managers then Noted(WithManager(s, p, Create(s.managers[p], gk, roster, secret, chain)), gk, 0, roster, secret) else s
    case RekeyEvent(p, gid, roster, secret, chain) =>
      if Owns(s, p, gid) then Rekeyed(s, p, gid, roster, secret, chain) else s
    case DeleteEvent(p, gid, secret, chain) =>
      if p !in s.managers then s
      else if Owns(s, p, gid) then
        var r := s.managers[p].recs[gid];
        Noted(WithManager(s, p, Delete(s.managers[p], gid, secret, chain)), r.gkPub, r.epoch + 1, [s.managers[p].me], secret)
      else WithManager(s, p, Delete(s.managers[p], gid, secret, chain))
    case DropEvent(p, gid) => if p in s.managers then WithManager(s, p, Drop(s.managers[p], gid)) else s
    case SayEvent(p, gid, text) => if p in s.managers then WithManager(s, p, SayIn(s.managers[p], gid, text)) else s
    case HandOverEvent(p, gid, peer) =>
      if p !in s.managers then s
      else (match SkdFor(s.managers[p], gid, Some(peer))
            case None => s
            case Some(skd) => Posted(s, Mail(p, peer, skd)))
    case DeliverEvent(mail, chain) =>
      if mail.peer in s.managers then WithManager(s, mail.peer, ApplySkd(s.managers[mail.peer], mail.from, mail.skd, chain).0) else s
    case InjectEvent(mail) => s.(mail := s.mail + {mail})
  }

  function Run(s: Sys, es: seq<Event>): Sys
    decreases |es|
  {
    if es == [] then s else Run(Step(s, es[0]), es[1..])
  }

  ghost predicate PossibleRun(s: Sys, es: seq<Event>)
    decreases |es|
  {
    es != [] ==> Possible(s, es[0]) && PossibleRun(Step(s, es[0]), es[1..])
  }

  /** Everybody starts with no group at all. */
  function Start(honest: set<nat>, known: set<nat>, maxSkip: nat, ttl: nat): Sys {
    Sys(honest, map p | p in honest :: Manager(p, map[], maxSkip, ttl), map[], {}, known, {})
  }

  // ------------------------------------------------------------------------
  // the invariant
  // ------------------------------------------------------------------------

  /** A record of an honest owner's group is the ledger's; of any other group, nothing secret. */
  ghost predicate RecAgrees(s: Sys, p: nat, g: Gid, r: Rec) {
    && RecOk(p, g, r)
    && g == GidOf(r.gkPub)
    && (r.gkPub.owner in s.honest ==> (r.gkPub, r.epoch) in s.ledger && s.ledger[(r.gkPub, r.epoch)] == EpochOf(r.roster, r.secret)
                                      && p in r.roster)
    && (r.gkPub.owner !in s.honest ==> r.secret in s.known)
    && (r.holdsGk ==> r.gkPub.owner == p && forall n: nat :: (r.gkPub, n) in s.ledger ==> n <= r.epoch)
  }

  /** A MAC for an honest member under an honest owner's key attests the ledger's roster. */
  ghost predicate MacAgrees(s: Sys, mac: RosterMac) {
    mac.RosterMac? && mac.gk.owner in s.honest && mac.member in s.honest ==>
      (mac.gk, mac.epoch) in s.ledger && s.ledger[(mac.gk, mac.epoch)].roster == mac.roster && mac.member in mac.roster
  }

  ghost predicate MailAgrees(s: Sys, x: Mail) {
    && (x.skd.rmac.Some? ==> MacAgrees(s, x.skd.rmac.value))
    && (x.from !in s.honest || x.skd.gkPub.owner !in s.honest ==> x.skd.secret in s.known)
    && (x.from in s.honest ==>
          && (x.skd.gkPub.owner in s.honest ==>
                && (x.skd.gkPub, x.skd.epoch) in s.ledger
                && s.ledger[(x.skd.gkPub, x.skd.epoch)] == EpochOf(x.skd.roster, x.skd.secret)
                && x.from in x.skd.roster && x.peer in x.skd.roster)
          && (x.skd.rmac.Some? ==> x.skd.gkPub.owner == x.from))
  }

  /** A ledger entry in dishonest hands has a dishonest member on its roster. */
  ghost predicate EntryOk(s: Sys, k: (Gk, nat)) {
    k in s.ledger ==>
      && k.0.owner in s.honest
      && [k.0.owner] <= s.ledger[k].roster
      && (s.ledger[k].secret in s.known ==> exists m :: m in s.ledger[k].roster && m !in s.honest)
  }

  ghost predicate Inv(s: Sys) {
    && s.managers.Keys == s.honest
    && (forall p :: p in s.managers ==> s.managers[p].me == p)
    && (forall p, g :: p in s.managers && g in s.managers[p].recs ==> RecAgrees(s, p, g, s.managers[p].recs[g]))
    && (forall x :: x in s.mail ==> MailAgrees(s, x))
    && (forall mac :: mac in s.macs ==> MacAgrees(s, mac))
    && (forall k :: k in s.ledger ==> EntryOk(s, k))
    && OneSecretEach(s)
  }

  ghost predicate OneSecretEach(s: Sys) {
    forall j, k :: j in s.ledger && k in s.ledger && s.ledger[j].secret == s.ledger[k].secret ==> j == k
  }

  lemma StartOk(honest: set<nat>, known: set<nat>, maxSkip: nat, ttl: nat)
    ensures Inv(Start(honest, known, maxSkip, ttl))
  {
  }

  // ------------------------------------------------------------------------
  // what each event keeps
  // ------------------------------------------------------------------------

  /** One manager changed, the ledger and everything else as before. */
  lemma ManagerStep(s: Sys, p: nat, m: Manager)
    requires Inv(s) && p in s.managers && m.me == p
    requires forall g :: g in m.recs ==> RecAgrees(s, p, g, m.recs[g])
    ensures Inv(WithManager(s, p, m))
  {
    var t := WithManager(s, p, m);
    forall q, g | q in t.managers && g in t.managers[q].recs ensures RecAgrees(t, q, g, t.managers[q].recs[g]) {
      assert RecAgrees(s, q, g, t.managers[q].recs[g]);
    }
    forall x | x in t.mail ensures MailAgrees(t, x) { assert MailAgrees(s, x); }
    forall mac | mac in t.macs ensures MacAgrees(t, mac) { assert MacAgrees(s, mac); }
    forall k | k in t.ledger ensures EntryOk(t, k) { assert EntryOk(s, k); }
  }

  /** The owner writes a new epoch with an unseen secret. */
  lemma NotedStep(s: Sys, gk: Gk, epoch: nat, roster: seq<nat>, secret: nat)
    requires Inv(s) && gk.owner in s.honest && (gk, epoch) !in s.ledger && [gk.owner] <= roster && Unseen(s, secret)
    requires forall p, g :: p in s.managers && g in s.managers[p].recs ==>
               !(s.managers[p].recs[g].holdsGk && s.managers[p].recs[g].gkPub == gk)
    ensures Inv(Noted(s, gk, epoch, roster, secret))
  {
    var t := Noted(s, gk, epoch, roster, secret);
    forall q, g | q in t.managers && g in t.managers[q].recs ensures RecAgrees(t, q, g, t.managers[q].recs[g]) {
      assert RecAgrees(s, q, g, t.managers[q].recs[g]);
    }
    forall x | x in t.mail ensures MailAgrees(t, x) { assert MailAgrees(s, x); }
    forall mac | mac in t.macs ensures MacAgrees(t, mac) { assert MacAgrees(s, mac); }
    forall k | k in t.ledger ensures EntryOk(t, k) { if k != (gk, epoch) { assert EntryOk(s, k); } }
  }

  lemma PostedStep(s: Sys, x: Mail)
    requires Inv(s) && MailAgrees(s, x) && x.from in s.honest
    requires forall k :: k in s.ledger && s.ledger[k].secret == x.skd.secret && x.skd.secret !in s.known ==> x.peer in s.ledger[k].roster
    ensures Inv(Posted(s, x))
  {
    var t := Posted(s, x);
    forall q, g | q in t.managers && g in t.managers[q].recs ensures RecAgrees(t, q, g, t.managers[q].recs[g]) {
      assert RecAgrees(s, q, g, t.managers[q].recs[g]);
    }
    forall y | y in t.mail ensures MailAgrees(t, y) { assert MailAgrees(s, y); }
    forall mac | mac in t.macs ensures MacAgrees(t, mac) {
      if mac in s.macs { assert MacAgrees(s, mac); }
    }
    forall k | k in t.ledger ensures EntryOk(t, k) {
      assert EntryOk(s, k);
      if t.ledger[k].secret in t.known && t.ledger[k].secret !in s.known {
        assert x.peer in t.ledger[k].roster && x.peer !in t.honest;
      }
    }
  }

  lemma RecOf(s: Sys, p: nat, g: Gid)
    requires Inv(s) && p in s.managers && g in s.managers[p].recs
    ensures p in s.honest && s.managers[p].me == p && RecAgrees(s, p, g, s.managers[p].recs[g])
    ensures s.managers[p].recs[g].gkPub.owner in s.honest ==> [s.managers[p].recs[g].gkPub.owner] <= s.managers[p].recs[g].roster
  {
    var r := s.managers[p].recs[g];
    if r.gkPub.owner in s.honest {
      assert EntryOk(s, (r.gkPub, r.epoch));
    }
  }

  lemma DropKeeps(s: Sys, p: nat, gid: Gid)
    requires Inv(s) && p in s.managers
    ensures Inv(WithManager(s, p, Drop(s.managers[p], gid)))
  {
    ManagerStep(s, p, Drop(s.managers[p], gid));
  }

  lemma SayKeeps(s: Sys, p: nat, gid: Gid, text: string)
    requires Inv(s) && p in s.managers
    ensures Inv(WithManager(s, p, SayIn(s.managers[p], gid, text)))
  {
    var m := SayIn(s.managers[p], gid, text);
    forall g | g in m.recs ensures RecAgrees(s, p, g, m.recs[g]) { RecOf(s, p, g); }
    ManagerStep(s, p, m);
  }

  /** The owner's record taken out, the new epoch noted, the new record put in. */
  lemma OwnEpochKeeps(s: Sys, p: nat, gk: Gk, epoch: nat, roster: seq<nat>, secret: nat, r: Rec)
    requires Inv(s) && p in s.managers && gk.owner == p && [p] <= roster && Unseen(s, secret)
    requires forall n: nat :: (gk, n) in s.ledger ==> n < epoch
    requires RecOk(p, GidOf(gk), r) && r.gkPub == gk && r.epoch == epoch && r.roster == roster && r.secret == secret
    ensures var m := s.managers[p].(recs := s.managers[p].recs[GidOf(gk) := r]);
            Inv(Noted(WithManager(s, p, m), gk, epoch, roster, secret))
  {
    var g := GidOf(gk);
    var m := s.managers[p].(recs := s.managers[p].recs[g := r]);
    var without := WithManager(s, p, Drop(s.managers[p], g));
    DropKeeps(s, p, g);
    forall q, h | q in without.managers && h in without.managers[q].recs
      ensures !(without.managers[q].recs[h].holdsGk && without.managers[q].recs[h].gkPub == gk)
    {
      RecOf(without, q, h);
    }
    NotedStep(without, gk, epoch, roster, secret);
    assert roster[0] == p;
    var noted := Noted(without, gk, epoch, roster, secret);
    forall h | h in m.recs ensures RecAgrees(noted, p, h, m.recs[h]) {
      if h != g {
        assert h in noted.managers[p].recs;
        RecOf(noted, p, h);
      }
    }
    ManagerStep(noted, p, m);
    assert WithManager(noted, p, m) == Noted(WithManager(s, p, m), gk, epoch, roster, secret);
  }

  lemma CreateKeeps(s: Sys, e: Event)
    requires Inv(s) && e.CreateEvent? && Possible(s, e)
    ensures Inv(Step(s, e))
  {
    var g := GidOf(e.gk);
    if g in s.managers[e.p].recs {
      RecOf(s, e.p, g);
    }
    var m := Create(s.managers[e.p], e.gk, e.roster, e.secret, e.chain);
    OwnEpochKeeps(s, e.p, e.gk, 0, e.roster, e.secret, m.recs[g]);
  }

  lemma RekeyedKeeps(s: Sys, p: nat, gid: Gid, roster: seq<nat>, secret: nat, chain: Key)
    requires Inv(s) && Owns(s, p, gid) && [p] <= roster && Unseen(s, secret)
    ensures Inv(Rekeyed(s, p, gid, roster, secret, chain))
  {
    RecOf(s, p, gid);
    var r := s.managers[p].recs[gid];
    var m := Rekey(s.managers[p], gid, roster, secret, chain);
    OwnEpochKeeps(s, p, r.gkPub, r.epoch + 1, roster, secret, m.recs[gid]);
  }

  lemma DeleteKeeps(s: Sys, e: Event)
    requires Inv(s) && e.DeleteEvent? && Possible(s, e)
    ensures Inv(Step(s, e))
  {
    if Owns(s, e.p, e.gid) {
      RecOf(s, e.p, e.gid);
      RekeyedKeeps(s, e.p, e.gid, [e.p], e.secret, e.chain);
      var t := Rekeyed(s, e.p, e.gid, [e.p], e.secret, e.chain);
      DropKeeps(t, e.p, e.gid);
      assert Step(s, e) == WithManager(t, e.p, Drop(t.managers[e.p], e.gid));
    } else {
      DropKeeps(s, e.p, e.gid);
    }
  }

  lemma HandOverKeeps(s: Sys, e: Event)
    requires Inv(s) && e.HandOverEvent? && Possible(s, e)
    ensures Inv(Step(s, e))
  {
    var m := s.managers[e.p];
    if SkdFor(m, e.gid, Some(e.peer)).Some? {
      RecOf(s, e.p, e.gid);
      PostedStep(s, Mail(e.p, e.peer, SkdFor(m, e.gid, Some(e.peer)).value));
    }
  }

  /** A record an accepted distribution establishes is the owner's. */
  lemma EstablishedAgrees(s: Sys, x: Mail)
    requires Inv(s) && x in s.mail && x.peer in s.managers && Obstacle(s.managers[x.peer], x.from, x.skd).None?
    ensures x.skd.gkPub.owner in s.honest ==>
              && (x.skd.gkPub, x.skd.epoch) in s.ledger
              && s.ledger[(x.skd.gkPub, x.skd.epoch)] == EpochOf(x.skd.roster, x.skd.secret)
              && x.peer in x.skd.roster
    ensures x.skd.gkPub.owner !in s.honest ==> x.skd.secret in s.known
  {
    assert MailAgrees(s, x) && MacAgrees(s, x.skd.rmac.value);
    if x.skd.gkPub.owner in s.honest {
      assert EntryOk(s, (x.skd.gkPub, x.skd.epoch));
    }
  }

  lemma DeliverKeeps(s: Sys, e: Event)
    requires Inv(s) && e.DeliverEvent? && Possible(s, e)
    ensures Inv(Step(s, e))
  {
    var x, p := e.mail, e.mail.peer;
    var m := s.managers[p];
    var (n, o) := ApplySkd(m, x.from, x.skd, e.chain);
    if o.Joined? || o.Rekeyed? {
      EstablishedAgrees(s, x);
      if x.skd.gid in m.recs {
        RecOf(s, p, x.skd.gid);
      }
    }
    forall g | g in n.recs ensures RecAgrees(s, p, g, n.recs[g]) {
      if g in m.recs {
        RecOf(s, p, g);
      }
    }
    ManagerStep(s, p, n);
  }

  lemma InjectKeeps(s: Sys, e: Event)
    requires Inv(s) && e.InjectEvent? && Possible(s, e)
    ensures Inv(Step(s, e))
  {
    var t := Step(s, e);
    assert MailAgrees(s, e.mail) by {
      if e.mail.skd.rmac.Some? && e.mail.skd.rmac.value in s.macs {
        assert MacAgrees(s, e.mail.skd.rmac.value);
      }
    }
    forall q, g | q in t.managers && g in t.managers[q].recs ensures RecAgrees(t, q, g, t.managers[q].recs[g]) {
      assert RecAgrees(s, q, g, t.managers[q].recs[g]);
    }
    forall x | x in t.mail ensures MailAgrees(t, x) { assert MailAgrees(s, x); }
    forall mac | mac in t.macs ensures MacAgrees(t, mac) { assert MacAgrees(s, mac); }
    forall k | k in t.ledger ensures EntryOk(t, k) { assert EntryOk(s, k); }
  }

  lemma StepKeeps(s: Sys, e: Event)
    requires Inv(s) && Possible(s, e)
    ensures Inv(Step(s, e))
  {
    match e
    case CreateEvent(_, _, _, _, _) => CreateKeeps(s, e);
    case RekeyEvent(p, gid, roster, secret, chain) => RekeyedKeeps(s, p, gid, roster, secret, chain);
    case DeleteEvent(_, _, _, _) => DeleteKeeps(s, e);
    case DropEvent(p, gid) => DropKeeps(s, p, gid);
    case SayEvent(p, gid, text) => SayKeeps(s, p, gid, text);
    case HandOverEvent(_, _, _) => HandOverKeeps(s, e);
    case DeliverEvent(_, _) => DeliverKeeps(s, e);
    case InjectEvent(_) => InjectKeeps(s, e);
  }

  lemma {:induction false} RunKeeps(s: Sys, es: seq<Event>)
    requires Inv(s) && PossibleRun(s, es)
    ensures Inv(Run(s, es))
    decreases |es|
  {
    if es == [] {
    } else {
      StepKeeps(s, es[0]);
      RunKeeps(Step(s, es[0]), es[1..]);
    }
  }

  // ------------------------------------------------------------------------
  // what every run gives
  // ------------------------------------------------------------------------

  /**
   * Agreement: two honest members at the same epoch of an honest admin's group hold
   * the same roster and the same secret, the ones the admin made for that epoch.
   */
  lemma Agreement(honest: set<nat>, known: set<nat>, maxSkip: nat, ttl: nat, es: seq<Event>, p: nat, q: nat, gk: Gk)
    requires PossibleRun(Start(honest, known, maxSkip, ttl), es) && gk.owner in honest
    requires var s := Run(Start(honest, known, maxSkip, ttl), es);
             && p in s.managers && q in s.managers && GidOf(gk) in s.managers[p].recs && GidOf(gk) in s.managers[q].recs
             && s.managers[p].recs[GidOf(gk)].epoch == s.managers[q].recs[GidOf(gk)].epoch
    ensures var s := Run(Start(honest, known, maxSkip, ttl), es);
            var a, b := s.managers[p].recs[GidOf(gk)], s.managers[q].recs[GidOf(gk)];
            && a.roster == b.roster && a.secret == b.secret
            && (gk, a.epoch) in s.ledger && s.ledger[(gk, a.epoch)] == EpochOf(a.roster, a.secret)
            && [gk.owner] <= a.roster
  {
    StartOk(honest, known, maxSkip, ttl);
    RunKeeps(Start(honest, known, maxSkip, ttl), es);
    HonestStays(Start(honest, known, maxSkip, ttl), es);
    var s := Run(Start(honest, known, maxSkip, ttl), es);
    RecOf(s, p, GidOf(gk));
    RecOf(s, q, GidOf(gk));
  }

  lemma {:induction false} HonestStays(s: Sys, es: seq<Event>)
    ensures Run(s, es).honest == s.honest
    decreases |es|
  {
    if es == [] {
    } else {
      HonestStays(Step(s, es[0]), es[1..]);
    }
  }

  /** An epoch whose roster holds only honest members. */
  predicate AllHonest(s: Sys, roster: seq<nat>) {
    forall m :: m in roster ==> m in s.honest
  }

  /**
   * Lockout: while its roster is honest, an epoch's secret is in nobody's hands but
   * its members' - no dishonest member knows it, no mail carries it to anyone else,
   * and no one else's records hold it.
   */
  lemma Lockout(honest: set<nat>, known: set<nat>, maxSkip: nat, ttl: nat, es: seq<Event>, gk: Gk, epoch: nat)
    requires PossibleRun(Start(honest, known, maxSkip, ttl), es)
    requires var s := Run(Start(honest, known, maxSkip, ttl), es);
             (gk, epoch) in s.ledger && AllHonest(s, s.ledger[(gk, epoch)].roster)
    ensures var s := Run(Start(honest, known, maxSkip, ttl), es);
            var e := s.ledger[(gk, epoch)];
            && e.secret !in s.known
            && (forall x :: x in s.mail && x.skd.secret == e.secret ==> x.peer in e.roster && x.from in e.roster)
            && (forall p, g :: p in s.managers && g in s.managers[p].recs && s.managers[p].recs[g].secret == e.secret ==> p in e.roster)
  {
    StartOk(honest, known, maxSkip, ttl);
    RunKeeps(Start(honest, known, maxSkip, ttl), es);
    var s := Run(Start(honest, known, maxSkip, ttl), es);
    var e := s.ledger[(gk, epoch)];
    assert EntryOk(s, (gk, epoch));
    forall x | x in s.mail && x.skd.secret == e.secret ensures x.peer in e.roster && x.from in e.roster {
      SecretMail(s, gk, epoch, x);
    }
    forall p, g | p in s.managers && g in s.managers[p].recs && s.managers[p].recs[g].secret == e.secret ensures p in e.roster {
      RecOf(s, p, g);
    }
  }

  lemma SecretMail(s: Sys, gk: Gk, epoch: nat, x: Mail)
    requires Inv(s) && (gk, epoch) in s.ledger && x in s.mail
    requires x.skd.secret == s.ledger[(gk, epoch)].secret && x.skd.secret !in s.known
    ensures x.peer in s.ledger[(gk, epoch)].roster && x.from in s.ledger[(gk, epoch)].roster
  {
    assert MailAgrees(s, x);
  }

  /**
   * Without any condition on the roster: whatever honest members hand over of an
   * epoch - secret and sending chain - goes to members of that epoch's roster only.
   */
  lemma OnlyMembersAreServed(honest: set<nat>, known: set<nat>, maxSkip: nat, ttl: nat, es: seq<Event>, x: Mail)
    requires PossibleRun(Start(honest, known, maxSkip, ttl), es)
    requires x in Run(Start(honest, known, maxSkip, ttl), es).mail && x.from in honest && x.skd.gkPub.owner in honest
    ensures var s := Run(Start(honest, known, maxSkip, ttl), es);
            && (x.skd.gkPub, x.skd.epoch) in s.ledger
            && x.peer in s.ledger[(x.skd.gkPub, x.skd.epoch)].roster
  {
    StartOk(honest, known, maxSkip, ttl);
    RunKeeps(Start(honest, known, maxSkip, ttl), es);
    HonestStays(Start(honest, known, maxSkip, ttl), es);
    assert MailAgrees(Run(Start(honest, known, maxSkip, ttl), es), x);
  }

  predicate Leaves(e: Event, p: nat, g: Gid) {
    (e.DropEvent? && e.p == p && e.gid == g) || (e.DeleteEvent? && e.p == p && e.gid == g)
  }

  lemma StepAdvances(s: Sys, e: Event, p: nat, g: Gid)
    requires Inv(s) && Possible(s, e) && !Leaves(e, p, g) && p in s.managers && g in s.managers[p].recs
    ensures p in Step(s, e).managers && g in Step(s, e).managers[p].recs
    ensures Advances(s.managers[p].recs[g], Step(s, e).managers[p].recs[g])
    ensures Step(s, e).managers[p].recs[g].gkPub == s.managers[p].recs[g].gkPub
  {
    hide EntryOk, MacAgrees;
    RecOf(s, p, g);
    if e.DeliverEvent? && e.mail.peer == p {
      var m := s.managers[p];
      assert ManagerOk(m) by {
        forall h | h in m.recs ensures RecOk(m.me, h, m.recs[h]) { RecOf(s, p, h); }
      }
      AppliedAdvances(m, e.mail.from, e.mail.skd, e.chain, g);
    } else if e.CreateEvent? && e.p == p {
    } else if e.DeleteEvent? {
      if Owns(s, e.p, e.gid) { RecOf(s, e.p, e.gid); }
    } else if e.RekeyEvent? {
      RecOf(s, e.p, e.gid);
    }
  }

  /**
   * Whatever members send, while an honest member stays its epoch never goes down, its admin and
   * group key never change, and the authority of the group key, once held, is held for good.
   */
  lemma {:induction false} EpochsOnlyRise(s: Sys, es: seq<Event>, p: nat, g: Gid)
    requires Inv(s) && PossibleRun(s, es) && p in s.managers && g in s.managers[p].recs
    requires forall e :: e in es ==> !Leaves(e, p, g)
    ensures p in Run(s, es).managers && g in Run(s, es).managers[p].recs
    ensures var (r, t) := (s.managers[p].recs[g], Run(s, es).managers[p].recs[g]);
            && Advances(r, t) && t.gkPub == r.gkPub && t.entry == r.entry
            && (r.holdsGk ==> t.holdsGk)
    decreases |es|
  {
    if es == [] {
    } else {
      assert es[0] in es;
      StepKeeps(s, es[0]);
      StepAdvances(s, es[0], p, g);
      EpochsOnlyRise(Step(s, es[0]), es[1..], p, g);
    }
  }

  // ------------------------------------------------------------------------
  // an epoch reaches its members, and a dissolved group has no more of them
  // ------------------------------------------------------------------------

  /** Handing over at once what the owner has for a member, and its delivery. */
  function HandOver(s: Sys, p: nat, gid: Gid, q: nat, chain: Key): seq<Event>
    requires p in s.managers && SkdFor(s.managers[p], gid, Some(q)).Some?
  {
    [HandOverEvent(p, gid, q), DeliverEvent(Mail(p, q, SkdFor(s.managers[p], gid, Some(q)).value), chain)]
  }

  lemma TwoSteps(s: Sys, a: Event, b: Event)
    ensures Run(s, [a, b]) == Step(Step(s, a), b)
    ensures PossibleRun(s, [a, b]) <==> Possible(s, a) && Possible(Step(s, a), b)
  {
    hide Step, Possible;
    assert [a, b][1..] == [b] && [b][1..] == [];
    assert Run(Step(s, a), [b]) == Step(Step(s, a), b);
    assert PossibleRun(Step(s, a), [b]) <==> Possible(Step(s, a), b);
  }

  /** The members' rosters begin with the owner, whatever else has happened. */
  lemma OwnerIsFirst(s: Sys, p: nat, q: nat, g: Gid)
    requires Inv(s) && Owns(s, p, g) && q in s.managers
    ensures [p] <= s.managers[p].recs[g].roster && g == GidOf(s.managers[p].recs[g].gkPub) && RecOk(p, g, s.managers[p].recs[g])
    ensures s.managers[p].me == p && s.managers[q].me == q && p in s.honest && q in s.honest
    ensures g in s.managers[q].recs ==>
              && [p] <= s.managers[q].recs[g].roster && RecOk(q, g, s.managers[q].recs[g])
              && s.managers[q].recs[g].epoch <= s.managers[p].recs[g].epoch
  {
    RecOf(s, p, g);
    if g in s.managers[q].recs { RecOf(s, q, g); }
  }

  /**
   * Liveness of membership, in every state a run reaches: the owner of a group hands its present
   * epoch to a member on the roster who has not got it yet, and on delivery the member is in it,
   * with the owner's roster and secret, and hears what the owner says next.
   */
  lemma EpochReachesMember(honest: set<nat>, known: set<nat>, maxSkip: nat, ttl: nat, es: seq<Event>,
                           p: nat, q: nat, g: Gid, chain: Key, now: nat, text: string)
    requires PossibleRun(Start(honest, known, maxSkip, ttl), es)
    requires var s := Run(Start(honest, known, maxSkip, ttl), es);
             && Owns(s, p, g) && q in s.managers && q != p && q in s.managers[p].recs[g].roster
             && (g in s.managers[q].recs ==> s.managers[q].recs[g].epoch != s.managers[p].recs[g].epoch)
    ensures var s := Run(Start(honest, known, maxSkip, ttl), es);
            SkdFor(s.managers[p], g, Some(q)).Some? &&
            var next := HandOver(s, p, g, q, chain);
            && PossibleRun(s, next)
            && var t := Run(s, next);
            && p in t.managers && q in t.managers && t.managers[p] == s.managers[p] && g in t.managers[q].recs
            && var (a, b) := (t.managers[p].recs[g], t.managers[q].recs[g]);
            && b.epoch == a.epoch && b.roster == a.roster && b.secret == a.secret && b.gkPub == a.gkPub
            && Follows(b, p, a.session.sending) && HearsNext(b, a, p, now, text)
  {
    hide PossibleRun, Run, HearsNext, Follows, Inv, ApplySkd, SkdFor;
    var s := Run(Start(honest, known, maxSkip, ttl), es);
    StartOk(honest, known, maxSkip, ttl);
    RunKeeps(Start(honest, known, maxSkip, ttl), es);
    OwnerIsFirst(s, p, q, g);
    var m, n := s.managers[p], s.managers[q];
    HandedOverIsTaken(m, n, g, chain, now, text);
    var mail := Mail(p, q, SkdFor(m, g, Some(q)).value);
    TwoSteps(s, HandOverEvent(p, g, q), DeliverEvent(mail, chain));
  }

  /** Who creates a group owns it for good: whatever is sent, until it leaves. */
  lemma CreatorStaysOwner(s: Sys, e: Event, es: seq<Event>)
    requires Inv(s) && e.CreateEvent? && Possible(s, e) && PossibleRun(Step(s, e), es)
    requires forall x :: x in es ==> !Leaves(x, e.p, GidOf(e.gk))
    ensures Owns(Run(Step(s, e), es), e.p, GidOf(e.gk))
  {
    hide Inv, Possible, PossibleRun;
    StepKeeps(s, e);
    CreatedIsOwned(s, e);
    EpochsOnlyRise(Step(s, e), es, e.p, GidOf(e.gk));
  }

  lemma CreatedIsOwned(s: Sys, e: Event)
    requires Inv(s) && e.CreateEvent? && Possible(s, e)
    ensures e.p in s.managers && Owns(Step(s, e), e.p, GidOf(e.gk))
    ensures var r := Step(s, e).managers[e.p].recs[GidOf(e.gk)];
            r.epoch == 0 && r.roster == e.roster && r.secret == e.secret && r.gkPub == e.gk && r.session.sending == Sender(e.chain, 0)
  {
    if GidOf(e.gk) in s.managers[e.p].recs { RecOf(s, e.p, GidOf(e.gk)); }
  }

  /** Nobody holds the group's key any more, and `last` was its last epoch. */
  ghost predicate Dissolved(s: Sys, gk: Gk, p: nat, last: nat) {
    && (gk, last) in s.ledger && s.ledger[(gk, last)].roster == [p]
    && (forall n: nat :: (gk, n) in s.ledger ==> n <= last)
    && (forall q :: q in s.managers ==> !Owns(s, q, GidOf(gk)))
  }

  lemma DissolvedStep(s: Sys, e: Event, gk: Gk, p: nat, last: nat)
    requires Inv(s) && Possible(s, e) && Dissolved(s, gk, p, last)
    ensures Dissolved(Step(s, e), gk, p, last) && Step(s, e).ledger[(gk, last)] == s.ledger[(gk, last)]
  {
    hide EntryOk, NewView, OneSecretEach;
    if e.RekeyEvent? || e.DeleteEvent? {
      if Owns(s, e.p, e.gid) { RecOf(s, e.p, e.gid); }
    }
  }

  lemma {:induction false} DissolvedStays(s: Sys, es: seq<Event>, gk: Gk, p: nat, last: nat)
    requires Inv(s) && PossibleRun(s, es) && Dissolved(s, gk, p, last)
    ensures Inv(Run(s, es)) && Dissolved(Run(s, es), gk, p, last) && Run(s, es).ledger[(gk, last)] == s.ledger[(gk, last)]
    decreases |es|
  {
    hide Step, Possible, Inv, Dissolved;
    if es != [] {
      StepKeeps(s, es[0]);
      DissolvedStep(s, es[0], gk, p, last);
      DissolvedStays(Step(s, es[0]), es[1..], gk, p, last);
    }
  }

  lemma DeletedIsDissolved(s: Sys, e: Event)
    requires Inv(s) && e.DeleteEvent? && Possible(s, e) && Owns(s, e.p, e.gid)
    ensures var r := s.managers[e.p].recs[e.gid];
            && Dissolved(Step(s, e), r.gkPub, e.p, r.epoch + 1) && e.gid == GidOf(r.gkPub)
            && Step(s, e).ledger[(r.gkPub, r.epoch + 1)] == EpochOf([e.p], e.secret)
  {
    hide EntryOk, MailAgrees, MacAgrees, OneSecretEach;
    RecOf(s, e.p, e.gid);
    forall q | q in s.managers && Owns(s, q, e.gid) ensures q == e.p { RecOf(s, q, e.gid); }
  }

  lemma OthersStayBehind(s: Sys, gk: Gk, p: nat, last: nat, q: nat)
    requires Inv(s) && Dissolved(s, gk, p, last) && gk.owner in s.honest && q in s.managers && q != p && GidOf(gk) in s.managers[q].recs
    ensures s.managers[q].recs[GidOf(gk)].epoch < last
  {
    RecOf(s, q, GidOf(gk));
  }

  /**
   * Dissolving is for good and shuts everybody out: once its owner deletes a group, the group has
   * one more epoch with nobody on it but the owner and never another, and every other honest
   * member stays at an older one, however the run goes on.
   */
  lemma DeletedForGood(s: Sys, e: Event, es: seq<Event>)
    requires Inv(s) && e.DeleteEvent? && Possible(s, e) && Owns(s, e.p, e.gid) && PossibleRun(Step(s, e), es)
    ensures var (gk, last, t) := (s.managers[e.p].recs[e.gid].gkPub, s.managers[e.p].recs[e.gid].epoch + 1, Run(Step(s, e), es));
            && (gk, last) in t.ledger && t.ledger[(gk, last)] == EpochOf([e.p], e.secret)
            && (forall n: nat :: (gk, n) in t.ledger ==> n <= last)
            && (forall q :: q in t.managers && q != e.p && e.gid in t.managers[q].recs ==> t.managers[q].recs[e.gid].epoch < last)
  {
    hide Inv, Step, Possible, Run, PossibleRun;
    RecOf(s, e.p, e.gid);
    var r := s.managers[e.p].recs[e.gid];
    StepKeeps(s, e);
    DeletedIsDissolved(s, e);
    DissolvedStays(Step(s, e), es, r.gkPub, e.p, r.epoch + 1);
    HonestStays(s, [e] + es);
    var v := Run(Step(s, e), es);
    assert ([e] + es)[1..] == es && v == Run(s, [e] + es) by { OnFrom(s, e, es); }
    forall q | q in v.managers && q != e.p && e.gid in v.managers[q].recs ensures v.managers[q].recs[e.gid].epoch < r.epoch + 1 {
      OthersStayBehind(v, r.gkPub, e.p, r.epoch + 1, q);
    }
  }

  lemma OnFrom(s: Sys, e: Event, es: seq<Event>)
    ensures ([e] + es)[1..] == es && Run(s, [e] + es) == Run(Step(s, e), es)
  {
  }
}
