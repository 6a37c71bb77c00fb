/**
 * The group manager (impl/lib/group.ts, `GroupManager`): which groups a client is
 * in, at which epoch, and how a sender-key distribution (SKD) moves it.
 */
module Group {
  import opened Keys
  import opened SkippedKeys
  import opened SenderKey
  import opened GroupSession

  /** The admin's per-recipient attestation of a roster; its key comes from ECDH(GK, member), the group and the epoch. */
  datatype RosterMac = RosterMac(gk: Gk, member: nat, gid: Gid, epoch: nat, roster: seq<nat>) | BadMac(id: nat)

  datatype Skd = Skd(gid: Gid, gkPub: Gk, epoch: nat, secret: nat, chain: Key, ctr: nat, roster: seq<nat>, rmac: Option<RosterMac>)

  /** `holdsGk` is admin authority; `entry` is the device entry a member keeps for the group. */
  datatype Rec = Rec(session: View, gkPub: Gk, secret: nat, roster: seq<nat>, epoch: nat, holdsGk: bool, entry: Option<nat>)

  datatype Manager = Manager(me: nat, recs: map<Gid, Rec>, maxSkip: nat, ttl: nat)

  datatype Problem = WrongGid | NoMac | MacDoesNotVerify | SenderIsNotAdmin | AdminMoved

  datatype SkdOutcome = Joined | Rekeyed | TookSenderKey | RefusedSkd | Stale | Threw(problem: Problem)

  // ------------------------------------------------------------------------
  // operations
  // ------------------------------------------------------------------------

  /** A new group or a newer epoch gets a fresh session; anything else leaves the record as it is. */
  function Admit(m: Manager, gid: Gid, gkPub: Gk, epoch: nat, secret: nat, roster: seq<nat>, holdsGk: bool, chain: Key): Manager {
    if gid in m.recs && m.recs[gid].epoch >= epoch then m
    else
      var known := gid in m.recs;
      m.(recs := m.recs[gid := Rec(NewView(m.me, gid, epoch, secret, roster, chain, m.maxSkip, m.ttl),
                                   gkPub, secret, roster, epoch,
                                   holdsGk || (known && m.recs[gid].holdsGk),
                                   if known then m.recs[gid].entry else None)])
  }

  function SeedChain(m: Manager, gid: Gid, from: nat, skd: Skd): Manager
    requires gid in m.recs
  {
    var rec := m.recs[gid];
    m.(recs := m.recs[gid := rec.(session := SetSenderKey(rec.session, from, skd.chain, skd.ctr))])
  }

  /** What stands in the way of an SKD that claims a newer epoch, in the order it is checked. */
  function Obstacle(m: Manager, from: nat, skd: Skd): Option<Problem> {
    if skd.gid != GidOf(skd.gkPub) then Some(WrongGid)
    else if skd.rmac.None? then Some(NoMac)
    else if skd.rmac.value != RosterMac(skd.gkPub, m.me, skd.gid, skd.epoch, skd.roster) then Some(MacDoesNotVerify)
    else if skd.roster == [] || skd.roster[0] != from then Some(SenderIsNotAdmin)
    else if skd.gid in m.recs && (m.recs[skd.gid].roster == [] || m.recs[skd.gid].roster[0] != skd.roster[0]) then Some(AdminMoved)
    else None
  }

  function ApplySkd(m: Manager, from: nat, skd: Skd, chain: Key): (Manager, SkdOutcome) {
    var gid := skd.gid;
    if gid !in m.recs || skd.epoch > m.recs[gid].epoch then
      match Obstacle(m, from, skd)
      case Some(p) => (m, Threw(p))
      case None =>
        (SeedChain(Admit(m, gid, skd.gkPub, skd.epoch, skd.secret, skd.roster, false, chain), gid, from, skd),
         if gid in m.recs then Rekeyed else Joined)
    else if skd.epoch < m.recs[gid].epoch then (m, Stale)
    else if from !in m.recs[gid].roster then (m, RefusedSkd)
    else (SeedChain(m, gid, from, skd), TookSenderKey)
  }

  function Create(m: Manager, gk: Gk, roster: seq<nat>, secret: nat, chain: Key): Manager {
    Admit(m, GidOf(gk), gk, 0, secret, roster, true, chain)
  }

  function Rekey(m: Manager, gid: Gid, roster: seq<nat>, secret: nat, chain: Key): Manager {
    if gid !in m.recs then m
    else Admit(m, m.recs[gid].session.gid, m.recs[gid].gkPub, m.recs[gid].epoch + 1, secret, roster, false, chain)
  }

  /** Nothing is built for an addressee outside the attested roster. */
  function SkdFor(m: Manager, gid: Gid, peer: Option<nat>): Option<Skd> {
    if gid !in m.recs then None
    else
      var rec := m.recs[gid];
      if peer.Some? && peer.value !in rec.roster then None
      else Some(Skd(rec.session.gid, rec.gkPub, rec.epoch, rec.secret, rec.session.sending.key, rec.session.sending.n, rec.roster,
                    if rec.holdsGk && peer.Some? then Some(RosterMac(rec.gkPub, peer.value, rec.session.gid, rec.epoch, rec.roster))
                    else None))
  }

  function Drop(m: Manager, gid: Gid): Manager {
    m.(recs := m.recs - {gid})
  }

  /** Dissolving a group one administers: lock everybody out, then forget it. */
  function Delete(m: Manager, gid: Gid, secret: nat, chain: Key): Manager {
    Drop(if gid in m.recs && m.recs[gid].holdsGk then Rekey(m, gid, [m.me], secret, chain) else m, gid)
  }

  /** A frame said in a group. */
  function SayIn(m: Manager, gid: Gid, text: string): Manager {
    if gid !in m.recs then m
    else m.(recs := m.recs[gid := m.recs[gid].(session := Say(m.recs[gid].session, text).0)])
  }

  // ------------------------------------------------------------------------
  // one manager, arbitrary messages
  // ------------------------------------------------------------------------

  /** Each record's session is of the group, epoch and roster it is filed under. */
  ghost predicate ManagerOk(m: Manager) {
    forall g :: g in m.recs ==> RecOk(m.me, g, m.recs[g])
  }

  predicate RecOk(me: nat, g: Gid, r: Rec) {
    && r.session.gid == g && r.session.epoch == r.epoch && r.session.me == me
    && r.session.secret == r.secret && r.session.members == r.roster
  }

  /** How a record may change: never to an older epoch, at one epoch only its chains, never another admin, and what it keeps for good it keeps. */
  predicate Advances(r: Rec, s: Rec) {
    && r.epoch <= s.epoch
    && (r.epoch == s.epoch ==> s.roster == r.roster && s.secret == r.secret && s.gkPub == r.gkPub && s.holdsGk == r.holdsGk)
    && (r.roster != [] ==> s.roster != [] && s.roster[0] == r.roster[0])
    && (r.holdsGk ==> s.holdsGk) && s.entry == r.entry
  }

  /** Whoever sends whatever: no epoch goes down, nothing changes inside one, the admin stays. */
  lemma AppliedAdvances(m: Manager, from: nat, skd: Skd, chain: Key, g: Gid)
    requires ManagerOk(m) && g in m.recs
    ensures ManagerOk(ApplySkd(m, from, skd, chain).0)
    ensures g in ApplySkd(m, from, skd, chain).0.recs && Advances(m.recs[g], ApplySkd(m, from, skd, chain).0.recs[g])
  {
    hide SetSenderKey;
    var gid := skd.gid;
    var a := if gid !in m.recs || skd.epoch > m.recs[gid].epoch
             then Admit(m, gid, skd.gkPub, skd.epoch, skd.secret, skd.roster, false, chain) else m;
    OnlyChains(a.recs[gid].session, from, skd.chain, skd.ctr);
  }

  /** A distributed key changes nothing of a session but its receiving chains. */
  lemma OnlyChains(s: View, from: nat, chain: Key, ctr: nat)
    ensures SetSenderKey(s, from, chain, ctr) == s.(receivers := SetSenderKey(s, from, chain, ctr).receivers)
  {
  }

  datatype Delivery = Delivery(from: nat, skd: Skd, chain: Key)

  function ApplyAll(m: Manager, ds: seq<Delivery>): Manager
    decreases |ds|
  {
    if ds == [] then m else ApplyAll(ApplySkd(m, ds[0].from, ds[0].skd, ds[0].chain).0, ds[1..])
  }

  lemma {:induction false} AllAppliedAdvances(m: Manager, ds: seq<Delivery>, g: Gid)
    requires ManagerOk(m) && g in m.recs
    ensures g in ApplyAll(m, ds).recs && Advances(m.recs[g], ApplyAll(m, ds).recs[g])
    decreases |ds|
  {
    if ds == [] {
    } else {
      var d := ds[0];
      AppliedAdvances(m, d.from, d.skd, d.chain, g);
      AllAppliedAdvances(ApplySkd(m, d.from, d.skd, d.chain).0, ds[1..], g);
    }
  }

  /**
   * The roster and the epoch move exactly under a MAC made for this member with the group's own key,
   * handed over by roster[0]. Inside an epoch a chain is taken exactly from a member of the roster,
   * and anything older or from elsewhere changes nothing.
   */
  lemma MovesOnlyUnderTheMac(m: Manager, from: nat, skd: Skd, chain: Key)
    ensures var (n, o) := ApplySkd(m, from, skd, chain);
            (o.Joined? || o.Rekeyed?)
            <==> && skd.gid == GidOf(skd.gkPub)
                 && skd.rmac == Some(RosterMac(skd.gkPub, m.me, skd.gid, skd.epoch, skd.roster))
                 && skd.roster != [] && skd.roster[0] == from
                 && (skd.gid in m.recs ==> skd.epoch > m.recs[skd.gid].epoch && [from] <= m.recs[skd.gid].roster)
    ensures var (n, o) := ApplySkd(m, from, skd, chain);
            && (o == TookSenderKey <==> skd.gid in m.recs && skd.epoch == m.recs[skd.gid].epoch && from in m.recs[skd.gid].roster)
            && (o == RefusedSkd <==> skd.gid in m.recs && skd.epoch == m.recs[skd.gid].epoch && from !in m.recs[skd.gid].roster)
            && (o == Stale <==> skd.gid in m.recs && skd.epoch < m.recs[skd.gid].epoch)
    ensures var (n, o) := ApplySkd(m, from, skd, chain);
            if o.Joined? || o.Rekeyed? then
              && n.recs.Keys == m.recs.Keys + {skd.gid}
              && n.recs[skd.gid].epoch == skd.epoch && n.recs[skd.gid].roster == skd.roster && n.recs[skd.gid].secret == skd.secret
            else if o.TookSenderKey? then
              n.recs == m.recs[skd.gid := m.recs[skd.gid].(session := n.recs[skd.gid].session)]
              && forall p :: p != from ==> ChainOf(n.recs[skd.gid].session, p) == ChainOf(m.recs[skd.gid].session, p)
            else n == m
  {
  }

  // ------------------------------------------------------------------------
  // what is handed over arrives
  // ------------------------------------------------------------------------

  function ChainOf(s: View, p: nat): Option<Receiver> {
    if p in s.receivers then Some(s.receivers[p]) else None
  }

  /** The member holds the other's chain where the other stands, under its own bounds, and no key of an earlier message. */
  predicate Follows(r: Rec, from: nat, s: Sender) {
    ChainOf(r.session, from) == Some(Receiver(s.key, s.n, map[], r.session.maxSkip, r.session.ttl))
  }

  /** What the other says next opens here, to its own text. */
  predicate HearsNext(r: Rec, s: Rec, from: nat, now: nat, text: string) {
    Hear(r.session, now, Say(s.session, text).1).1 == Received(from, text)
  }

  /**
   * An epoch reaches its members: what the holder of the group key, first on its roster, builds
   * for a member who is new or at an older epoch is accepted. The member then has the admin's
   * epoch, roster and secret, a sending chain of its own and nobody's old chains, follows the
   * admin's chain at the admin's own key and counter, and hears what the admin says next.
   */
  lemma HandedOverIsTaken(m: Manager, n: Manager, gid: Gid, chain: Key, now: nat, text: string)
    requires gid in m.recs && RecOk(m.me, gid, m.recs[gid]) && m.recs[gid].holdsGk && gid == GidOf(m.recs[gid].gkPub)
    requires [m.me] <= m.recs[gid].roster && n.me in m.recs[gid].roster && n.me != m.me
    requires gid in n.recs ==> n.recs[gid].epoch < m.recs[gid].epoch && [m.me] <= n.recs[gid].roster
    ensures var skd := SkdFor(m, gid, Some(n.me));
            skd.Some? &&
            var (t, o) := ApplySkd(n, m.me, skd.value, chain);
            && o == (if gid in n.recs then Rekeyed else Joined)
            && gid in t.recs
            && var (a, b) := (m.recs[gid], t.recs[gid]);
            && RecOk(n.me, gid, b)
            && b.epoch == a.epoch && b.roster == a.roster && b.secret == a.secret && b.gkPub == a.gkPub
            && b.session.sending == Sender(chain, 0) && b.session.receivers.Keys == {m.me}
            && b.session.maxSkip == n.maxSkip && b.session.ttl == n.ttl
            && Follows(b, m.me, a.session.sending)
            && HearsNext(b, a, m.me, now, text)
  {
    var skd := SkdFor(m, gid, Some(n.me)).value;
    var a, b := m.recs[gid], ApplySkd(n, m.me, skd, chain).0.recs[gid];
    assert a.roster[0] == m.me;
    HeardAsSaid(a.session, b.session, now, text);
  }

  /**
   * Inside an epoch any member's chain reaches any other: it is taken, unless the other holds it
   * further along already, and then the other hears what is said next.
   */
  lemma ChainHandedOver(m: Manager, n: Manager, gid: Gid, chain: Key, now: nat, text: string)
    requires gid in m.recs && RecOk(m.me, gid, m.recs[gid]) && gid in n.recs && RecOk(n.me, gid, n.recs[gid])
    requires n.me != m.me && m.recs[gid].epoch == n.recs[gid].epoch && m.recs[gid].roster == n.recs[gid].roster
    requires m.me in m.recs[gid].roster && n.me in m.recs[gid].roster
    ensures var skd := SkdFor(m, gid, Some(n.me));
            skd.Some? &&
            var (t, o) := ApplySkd(n, m.me, skd.value, chain);
            && o == TookSenderKey && gid in t.recs
            && var (a, b, was) := (m.recs[gid], t.recs[gid], ChainOf(n.recs[gid].session, m.me));
            if was.Some? && was.value.n > a.session.sending.n then b == n.recs[gid]
            else Follows(b, m.me, a.session.sending) && HearsNext(b, a, m.me, now, text)
  {
    var skd := SkdFor(m, gid, Some(n.me)).value;
    var a, b, was := m.recs[gid], ApplySkd(n, m.me, skd, chain).0.recs[gid], ChainOf(n.recs[gid].session, m.me);
    if !(was.Some? && was.value.n > a.session.sending.n) {
      HeardAsSaid(a.session, b.session, now, text);
    }
  }

  /** One handed the chain after something was said hears nothing of it: what is handed over starts behind it. */
  lemma EarlierStaysShut(m: Manager, n: Manager, gid: Gid, chain: Key, now: nat, text: string)
    requires gid in m.recs && RecOk(m.me, gid, m.recs[gid]) && n.me in m.recs[gid].roster && n.me != m.me
    ensures var said := Say(m.recs[gid].session, text).1;
            var skd := SkdFor(SayIn(m, gid, text), gid, Some(n.me));
            skd.Some? &&
            var (t, o) := ApplySkd(n, m.me, skd.value, chain);
            (o == Joined || o == Rekeyed) && gid in t.recs ==> !Hear(t.recs[gid].session, now, said).1.Received?
  {
  }

  /** After a change of roster: a fresh sending chain, nobody's chains, and the next epoch under the new secret. */
  lemma RekeyStartsAnew(m: Manager, gid: Gid, roster: seq<nat>, secret: nat, chain: Key)
    requires gid in m.recs && RecOk(m.me, gid, m.recs[gid])
    ensures var (r, n) := (m.recs[gid], Rekey(m, gid, roster, secret, chain));
            && gid in n.recs && RecOk(m.me, gid, n.recs[gid])
            && var s := n.recs[gid];
            && s.epoch == r.epoch + 1 && s.roster == roster && s.secret == secret && s.gkPub == r.gkPub
            && s.session.sending == Sender(chain, 0) && s.session.receivers == map[]
            && s.holdsGk == r.holdsGk && s.entry == r.entry
            && n.recs - {gid} == m.recs - {gid}
  {
  }

  /**
   * Removal locks out: no session of an earlier epoch, whatever chains it holds, takes what is said
   * after a change of roster, which is sealed from the fresh chain and addressed to the new roster only.
   */
  lemma RemovedHearsNothing(m: Manager, gid: Gid, roster: seq<nat>, secret: nat, chain: Key, text: string, t: View, now: nat)
    requires gid in m.recs && RecOk(m.me, gid, m.recs[gid]) && t.epoch <= m.recs[gid].epoch
    ensures var f := Say(Rekey(m, gid, roster, secret, chain).recs[gid].session, text).1;
            && f.GroupFrame? && Hear(t, now, f) == (t, Nothing)
            && f.body == GroupSealed(Msg(chain), 0, f.header, text)
            && f.macs.Keys == (set p | p in roster && p != m.me)
  {
  }

  // ------------------------------------------------------------------------
  // snapshot and restore
  // ------------------------------------------------------------------------

  datatype Position = Position(key: Key, n: nat)

  datatype Snap = Snap(gid: Gid, gkPub: Gk, epoch: nat, secret: nat, roster: seq<nat>, holdsGk: bool, entry: Option<nat>,
                       sending: Position, receivers: map<nat, Position>)

  function PositionsOf(receivers: map<nat, Receiver>): map<nat, Position> {
    map m | m in receivers :: Position(receivers[m].key, receivers[m].n)
  }

  function SnapOf(r: Rec): Snap {
    Snap(r.session.gid, r.gkPub, r.epoch, r.secret, r.roster, r.holdsGk, r.entry,
         Position(r.session.sending.key, r.session.sending.n), PositionsOf(r.session.receivers))
  }

  /** One snapshot per group, in some order. */
  ghost predicate SnapshotOf(m: Manager, snaps: seq<Snap>) {
    && (forall i :: 0 <= i < |snaps| ==> snaps[i].gid in m.recs && snaps[i] == SnapOf(m.recs[snaps[i].gid]))
    && (forall i, j :: 0 <= i < j < |snaps| ==> snaps[i].gid != snaps[j].gid)
    && (forall g :: g in m.recs ==> exists i :: 0 <= i < |snaps| && snaps[i].gid == g)
  }

  function ImportChains(s: View, sending: Position, receivers: map<nat, Position>): View {
    s.(sending := Sender(sending.key, sending.n),
       receivers := map m | m in receivers :: Receiver(receivers[m].key, receivers[m].n, map[], s.maxSkip, s.ttl))
  }

  function RestoreOne(m: Manager, s: Snap, chain: Key): Manager {
    var a := Admit(m, s.gid, s.gkPub, s.epoch, s.secret, s.roster, s.holdsGk, chain);
    var rec := a.recs[s.gid];
    a.(recs := a.recs[s.gid := rec.(entry := if s.entry.Some? then s.entry else rec.entry,
                                     session := ImportChains(rec.session, s.sending, s.receivers))])
  }

  function RestoreAll(m: Manager, snaps: seq<Snap>, chain: Key): Manager
    decreases |snaps|
  {
    if snaps == [] then m else RestoreAll(RestoreOne(m, snaps[0], chain), snaps[1..], chain)
  }

  /** A record as it comes back: everything but the keys held for skipped messages. */
  function Rested(m: Manager, r: Rec): Rec {
    r.(session := r.session.(receivers := map p | p in r.session.receivers ::
                                            Receiver(r.session.receivers[p].key, r.session.receivers[p].n, map[], m.maxSkip, m.ttl)))
  }

  ghost predicate SameBounds(m: Manager) {
    forall g :: g in m.recs ==> m.recs[g].session.maxSkip == m.maxSkip && m.recs[g].session.ttl == m.ttl
  }

  lemma RestoreOneRests(m: Manager, n: Manager, s: Snap, chain: Key)
    requires ManagerOk(m) && SameBounds(m)
    requires s.gid in m.recs && s == SnapOf(m.recs[s.gid])
    requires n.me == m.me && n.maxSkip == m.maxSkip && n.ttl == m.ttl && s.gid !in n.recs
    ensures RestoreOne(n, s, chain) == n.(recs := n.recs[s.gid := Rested(m, m.recs[s.gid])])
  {
    var r := m.recs[s.gid];
    assert RecOk(m.me, s.gid, r);
    var back := RestoreOne(n, s, chain).recs[s.gid];
    assert back.session.receivers == Rested(m, r).session.receivers;
    assert back.session == Rested(m, r).session;
    assert back.(session := r.session) == r;
  }

  lemma {:induction false} RestoreRests(m: Manager, n: Manager, snaps: seq<Snap>, chain: Key)
    requires ManagerOk(m) && SameBounds(m)
    requires forall i :: 0 <= i < |snaps| ==> snaps[i].gid in m.recs && snaps[i] == SnapOf(m.recs[snaps[i].gid]) && snaps[i].gid !in n.recs
    requires forall i, j :: 0 <= i < j < |snaps| ==> snaps[i].gid != snaps[j].gid
    requires n.me == m.me && n.maxSkip == m.maxSkip && n.ttl == m.ttl
    ensures var t := RestoreAll(n, snaps, chain);
            && t == n.(recs := t.recs)
            && (forall g :: g in t.recs <==> g in n.recs || exists i :: 0 <= i < |snaps| && snaps[i].gid == g)
            && (forall g :: g in t.recs ==> t.recs[g] == (if g in n.recs then n.recs[g] else Rested(m, m.recs[g])))
    decreases |snaps|
  {
    hide SnapOf;
    if snaps == [] {
    } else {
      var s, rest := snaps[0], snaps[1..];
      RestoreOneRests(m, n, s, chain);
      var k := RestoreOne(n, s, chain);
      assert forall i :: 0 <= i < |rest| ==> rest[i] == snaps[i + 1];
      RestoreRests(m, k, rest, chain);
      var t := RestoreAll(n, snaps, chain);
      forall g ensures g in t.recs <==> g in n.recs || exists i :: 0 <= i < |snaps| && snaps[i].gid == g {
        if i :| 0 <= i < |snaps| && snaps[i].gid == g {
          if i > 0 { assert rest[i - 1].gid == g; }
        }
        if i :| 0 <= i < |rest| && rest[i].gid == g {
          assert snaps[i + 1].gid == g;
        }
      }
    }
  }

  /**
   * Restoring a snapshot into an empty manager brings every group back with its
   * epoch, secret, roster, authority and every chain at its position; only the keys
   * held for skipped messages are gone.
   */
  lemma RestoreUndoesSnapshot(m: Manager, snaps: seq<Snap>, chain: Key)
    requires ManagerOk(m) && SameBounds(m) && SnapshotOf(m, snaps)
    ensures RestoreAll(m.(recs := map[]), snaps, chain).recs == map g | g in m.recs :: Rested(m, m.recs[g])
  {
    RestoreRests(m, m.(recs := map[]), snaps, chain);
  }

  // ------------------------------------------------------------------------
  // the manager in place
  // ------------------------------------------------------------------------

  class GroupManager {
    const me: nat
    const maxSkip: nat
    const ttl: nat
    var recs: map<Gid, Rec>

    ghost function Value(): Manager
      reads this
    {
      Manager(me, recs, maxSkip, ttl)
    }

    constructor (me: nat, maxSkip: nat, ttl: nat)
      ensures Value() == Manager(me, map[], maxSkip, ttl)
    {
      this.me, this.maxSkip, this.ttl, recs := me, maxSkip, ttl, map[];
    }

    method TakeIn(gid: Gid, gkPub: Gk, epoch: nat, secret: nat, roster: seq<nat>, holdsGk: bool, chain: Key)
      modifies this
      ensures Value() == Admit(old(Value()), gid, gkPub, epoch, secret, roster, holdsGk, chain)
    {
      if gid in recs && recs[gid].epoch >= epoch {
        return;
      }
      var session := NewView(me, gid, epoch, secret, roster, chain, maxSkip, ttl);
      var keeps, entry := holdsGk, None;
      if gid in recs {
        keeps, entry := holdsGk || recs[gid].holdsGk, recs[gid].entry;
      }
      recs := recs[gid := Rec(session, gkPub, secret, roster, epoch, keeps, entry)];
    }

    method Seed(gid: Gid, from: nat, skd: Skd)
      requires gid in recs
      modifies this
      ensures Value() == SeedChain(old(Value()), gid, from, skd)
    {
      var rec := recs[gid];
      recs := recs[gid := rec.(session := SetSenderKey(rec.session, from, skd.chain, skd.ctr))];
    }

    method Apply(from: nat, skd: Skd, chain: Key) returns (o: SkdOutcome)
      modifies this
      ensures (Value(), o) == ApplySkd(old(Value()), from, skd, chain)
    {
      var known := skd.gid in recs;
      if !known || skd.epoch > recs[skd.gid].epoch {
        if skd.gid != GidOf(skd.gkPub) {
          return Threw(WrongGid);
        }
        if skd.rmac.None? {
          return Threw(NoMac);
        }
        if skd.rmac.value != RosterMac(skd.gkPub, me, skd.gid, skd.epoch, skd.roster) {
          return Threw(MacDoesNotVerify);
        }
        if skd.roster == [] || skd.roster[0] != from {
          return Threw(SenderIsNotAdmin);
        }
        if known && (recs[skd.gid].roster == [] || recs[skd.gid].roster[0] != skd.roster[0]) {
          return Threw(AdminMoved);
        }
        TakeIn(skd.gid, skd.gkPub, skd.epoch, skd.secret, skd.roster, false, chain);
        Seed(skd.gid, from, skd);
        return if known then Rekeyed else Joined;
      }
      if skd.epoch < recs[skd.gid].epoch {
        return Stale;
      }
      if from !in recs[skd.gid].roster {
        return RefusedSkd;
      }
      Seed(skd.gid, from, skd);
      return TookSenderKey;
    }

    method ChangeRoster(gid: Gid, roster: seq<nat>, secret: nat, chain: Key)
      modifies this
      ensures Value() == Rekey(old(Value()), gid, roster, secret, chain)
    {
      if gid in recs {
        var rec := recs[gid];
        TakeIn(rec.session.gid, rec.gkPub, rec.epoch + 1, secret, roster, false, chain);
      }
    }

    method Forget(gid: Gid)
      modifies this
      ensures Value() == Drop(old(Value()), gid)
    {
      if gid in recs {
        recs := recs - {gid};
      } else {
        assert recs - {gid} == recs;
      }
    }

    method Dissolve(gid: Gid, secret: nat, chain: Key)
      modifies this
      ensures Value() == Delete(old(Value()), gid, secret, chain)
    {
      if gid in recs && recs[gid].holdsGk {
        ChangeRoster(gid, [me], secret, chain);
      }
      Forget(gid);
    }

    method TakeSnapshot() returns (snaps: seq<Snap>)
      requires ManagerOk(Value())
      ensures SnapshotOf(Value(), snaps)
    {
      snaps := [];
      var left := recs.Keys;
      while left != {}
        invariant left <= recs.Keys
        invariant forall i :: 0 <= i < |snaps| ==>
                    snaps[i].gid in recs && snaps[i].gid !in left && snaps[i] == SnapOf(recs[snaps[i].gid])
        invariant forall i, j :: 0 <= i < j < |snaps| ==> snaps[i].gid != snaps[j].gid
        invariant forall g :: g in recs && g !in left ==> exists i :: 0 <= i < |snaps| && snaps[i].gid == g
        decreases |left|
      {
        var g :| g in left;
        assert RecOk(me, g, recs[g]);
        ghost var before, was := snaps, left;
        snaps := snaps + [SnapOf(recs[g])];
        left := left - {g};
        assert snaps[|before|].gid == g;
        forall x | x in recs && x !in left ensures exists i :: 0 <= i < |snaps| && snaps[i].gid == x {
          if x != g {
            assert x !in was;
            var i :| 0 <= i < |before| && before[i].gid == x;
            assert snaps[i].gid == x;
          }
        }
      }
    }

    method Restore(snaps: seq<Snap>, chain: Key)
      modifies this
      ensures Value() == RestoreAll(old(Value()), snaps, chain)
    {
      var i := 0;
      while i < |snaps|
        invariant i <= |snaps|
        invariant RestoreAll(old(Value()), snaps, chain) == RestoreAll(Value(), snaps[i..], chain)
      {
        var s := snaps[i];
        assert snaps[i..][0] == s && snaps[i..][1..] == snaps[i + 1..];
        label Before:
        TakeIn(s.gid, s.gkPub, s.epoch, s.secret, s.roster, s.holdsGk, chain);
        var rec := recs[s.gid];
        if s.entry.Some? {
          rec := rec.(entry := s.entry);
        }
        recs := recs[s.gid := rec.(session := ImportChains(rec.session, s.sending, s.receivers))];
        assert Value() == RestoreOne(old@Before(Value()), s, chain);
        i := i + 1;
      }
    }
  }
}
