// The upstream IMAP server as the gateway meets it: mailboxes with UIDVALIDITY
// and ascending UIDs (section 2.3.1.1 of RFC 3501), COPY and STORE, MOVE
// (section 3.3 of RFC 6851), UID EXPUNGE (section 2.1 of RFC 4315), and
// everything other clients may do in between.
module ImapServer {
  import opened Wrappers
  import opened Text
  import opened UidSets

  /** id names the message itself; it never changes and never appears on the wire. */
  datatype Message = Message(id: nat, content: string, flags: set<string>)

  /** birth tells apart two mailboxes that had the same name at different times. */
  datatype Mailbox = Mailbox(birth: nat, uidvalidity: nat, uidnext: nat, msgs: map<nat, Message>)

  /** used: every (name, UIDVALIDITY) pair ever announced, with the mailbox it stood for. */
  datatype Server = Server(boxes: map<string, Mailbox>, used: map<(string, nat), nat>, nextBirth: nat, nextId: nat)

  ghost predicate Valid(s: Server) {
    && (forall n :: n in s.boxes ==> BoxValid(s, n, s.boxes[n]))
    && (forall k :: k in s.used ==> s.used[k] < s.nextBirth)
    && (forall a, b :: a in s.boxes && b in s.boxes && s.boxes[a].birth == s.boxes[b].birth ==> a == b)
  }

  ghost predicate BoxValid(s: Server, name: string, box: Mailbox) {
    && (name, box.uidvalidity) in s.used && s.used[(name, box.uidvalidity)] == box.birth
    && UidsBelowNext(box)
  }

  ghost predicate UidsBelowNext(box: Mailbox) {
    forall u :: u in box.msgs ==> u < box.uidnext
  }

  predicate At(s: Server, box: string, uid: nat, id: nat) {
    box in s.boxes && uid in s.boxes[box].msgs && s.boxes[box].msgs[uid].id == id
  }

  /** No message is in two places. */
  ghost predicate OnePlaceEach(s: Server) {
    && (forall n, u: nat, id: nat :: At(s, n, u, id) ==> id < s.nextId)
    && (forall n, u: nat, m, v: nat, id: nat :: At(s, n, u, id) && At(s, m, v, id) ==> n == m && u == v)
  }

  // ----- commands -----

  /** The messages a uid_set names in a mailbox; "*" is its largest UID. */
  function Matched(box: Mailbox, ps: seq<Part>): (uids: set<nat>)
    ensures uids <= box.msgs.Keys
  {
    set u | u in box.msgs && Denotes(ps, MaxOf(SortedUids(box.msgs.Keys)), u)
  }

  /** Where the server puts moved or copied messages: destination UID -> source UID. */
  datatype Placement = Placement(back: map<nat, nat>, next: nat)

  predicate Fits(p: Placement, uids: set<nat>, uidnext: nat) {
    && (forall a :: a in p.back ==> p.back[a] in uids && uidnext <= a < p.next)
    && (forall u :: u in uids ==> exists a :: a in p.back && p.back[a] == u)
    && (forall a, b :: a in p.back && b in p.back && p.back[a] == p.back[b] ==> a == b)
    && uidnext <= p.next
  }

  predicate CanTransfer(s: Server, from: string, uids: set<nat>, to: string, p: Placement) {
    from in s.boxes && to in s.boxes && uids <= s.boxes[from].msgs.Keys && Fits(p, uids, s.boxes[to].uidnext)
  }

  function Received(box: Mailbox, p: Placement, arriving: map<nat, Message>): Mailbox {
    box.(msgs := box.msgs + arriving, uidnext := p.next)
  }

  function Lost(box: Mailbox, uids: set<nat>): Mailbox {
    box.(msgs := box.msgs - uids)
  }

  /** UID MOVE: the messages themselves change mailbox, flags included. */
  function Move(s: Server, from: string, uids: set<nat>, to: string, p: Placement): Server
    requires CanTransfer(s, from, uids, to, p)
  {
    var src := s.boxes[from];
    var arriving := map a | a in p.back :: src.msgs[p.back[a]];
    var left := s.boxes[from := Lost(src, uids)];
    s.(boxes := left[to := Received(left[to], p, arriving)])
  }

  /** UID COPY: new messages with the same content and flags. */
  function Copy(s: Server, from: string, uids: set<nat>, to: string, p: Placement): Server
    requires CanTransfer(s, from, uids, to, p)
  {
    var src := s.boxes[from];
    var arriving := map a | a in p.back :: src.msgs[p.back[a]].(id := s.nextId + a);
    s.(boxes := s.boxes[to := Received(s.boxes[to], p, arriving)], nextId := s.nextId + p.next)
  }

  datatype Change = Add | Remove | Replace

  /** Flags are compared without regard to case. */
  function Canonical(flags: seq<string>): set<string> {
    set f | f in flags :: Lower(f)
  }

  function Changed(have: set<string>, change: Change, flags: set<string>): set<string> {
    match change case Add => have + flags case Remove => have - flags case Replace => flags
  }

  function Restored(box: Mailbox, uids: set<nat>, change: Change, flags: set<string>): Mailbox {
    box.(msgs := map u | u in box.msgs ::
           if u in uids then box.msgs[u].(flags := Changed(box.msgs[u].flags, change, flags)) else box.msgs[u])
  }

  function Store(s: Server, box: string, uids: set<nat>, change: Change, flags: set<string>): Server
    requires box in s.boxes
  {
    s.(boxes := s.boxes[box := Restored(s.boxes[box], uids, change, flags)])
  }

  const DELETED := "\\deleted"

  /** UID EXPUNGE: removes the named messages that carry \Deleted. */
  function UidExpunge(s: Server, box: string, uids: set<nat>): Server
    requires box in s.boxes
  {
    var b := s.boxes[box];
    s.(boxes := s.boxes[box := Lost(b, set u | u in uids && u in b.msgs && DELETED in b.msgs[u].flags)])
  }

  // ----- other clients -----

  datatype Step =
    | Deliver(box: string, content: string, flags: set<string>, uid: nat)
    | Expunge(box: string, uids: set<nat>)
    | Flag(box: string, uids: set<nat>, change: Change, flags: set<string>)
    | Transfer(from: string, uids: set<nat>, to: string, p: Placement)
    | Duplicate(from: string, uids: set<nat>, to: string, p: Placement)
    | Create(box: string, validity: nat)
    | Delete(box: string)
    | Rename(from: string, to: string, validity: nat)
    | Renumber(box: string, validity: nat, p: Placement)

  /** A name never announces a UIDVALIDITY that meant other UIDs under that name. */
  predicate Enabled(s: Server, e: Step) {
    match e
    case Deliver(box, _, _, uid) => box in s.boxes && s.boxes[box].uidnext <= uid
    case Expunge(box, _) => box in s.boxes
    case Flag(box, _, _, _) => box in s.boxes
    case Transfer(from, uids, to, p) => CanTransfer(s, from, uids, to, p)
    case Duplicate(from, uids, to, p) => CanTransfer(s, from, uids, to, p)
    case Create(box, validity) => box !in s.boxes && (box, validity) !in s.used
    case Delete(box) => box in s.boxes
    case Rename(from, to, validity) =>
      from in s.boxes && to !in s.boxes
      && ((to, validity) in s.used ==> s.used[(to, validity)] == s.boxes[from].birth)
    case Renumber(box, validity, p) =>
      box in s.boxes && (box, validity) !in s.used && Fits(p, s.boxes[box].msgs.Keys, 0)
  }

  function Apply(s: Server, e: Step): Server
    requires Enabled(s, e)
  {
    match e
    case Deliver(box, content, flags, uid) =>
      var b := s.boxes[box];
      s.(boxes := s.boxes[box := b.(msgs := b.msgs[uid := Message(s.nextId, content, flags)], uidnext := uid + 1)],
         nextId := s.nextId + 1)
    case Expunge(box, uids) => s.(boxes := s.boxes[box := Lost(s.boxes[box], uids)])
    case Flag(box, uids, change, flags) => Store(s, box, uids, change, flags)
    case Transfer(from, uids, to, p) => Move(s, from, uids, to, p)
    case Duplicate(from, uids, to, p) => Copy(s, from, uids, to, p)
    case Create(box, validity) =>
      s.(boxes := s.boxes[box := Mailbox(s.nextBirth, validity, 1, map[])],
         used := s.used[(box, validity) := s.nextBirth], nextBirth := s.nextBirth + 1)
    case Delete(box) => s.(boxes := s.boxes - {box})
    case Rename(from, to, validity) =>
      var b := s.boxes[from];
      s.(boxes := (s.boxes - {from})[to := b.(uidvalidity := validity)], used := s.used[(to, validity) := b.birth])
    case Renumber(box, validity, p) =>
      var b := s.boxes[box];
      var renumbered := map a | a in p.back :: b.msgs[p.back[a]];
      s.(boxes := s.boxes[box := Mailbox(s.nextBirth, validity, p.next, renumbered)],
         used := s.used[(box, validity) := s.nextBirth], nextBirth := s.nextBirth + 1)
  }

  /** Any interleaving: steps that cannot happen are skipped. */
  function After(s: Server, steps: seq<Step>): Server
    decreases |steps|
  {
    if steps == [] then s
    else After(if Enabled(s, steps[0]) then Apply(s, steps[0]) else s, steps[1..])
  }

  // ----- what every step keeps -----

  /** Only messages changed: every mailbox is still the one it was. */
  ghost predicate SameBoxes(s: Server, t: Server) {
    && t.used == s.used && t.nextBirth == s.nextBirth && t.boxes.Keys == s.boxes.Keys
    && forall n :: n in t.boxes ==> SameBox(s.boxes[n], t.boxes[n])
  }

  predicate SameBox(b: Mailbox, c: Mailbox) {
    c.birth == b.birth && c.uidvalidity == b.uidvalidity
  }

  lemma SameBoxesKeepValid(s: Server, t: Server)
    requires Valid(s) && SameBoxes(s, t)
    requires forall n :: n in t.boxes ==> UidsBelowNext(t.boxes[n])
    ensures Valid(t)
  {
    forall n | n in t.boxes ensures BoxValid(t, n, t.boxes[n]) {
      assert BoxValid(s, n, s.boxes[n]) && SameBox(s.boxes[n], t.boxes[n]);
    }
    forall a, b | a in t.boxes && b in t.boxes && t.boxes[a].birth == t.boxes[b].birth ensures a == b {
      assert SameBox(s.boxes[a], t.boxes[a]) && SameBox(s.boxes[b], t.boxes[b]);
    }
  }

  predicate Structural(e: Step) {
    e.Create? || e.Delete? || e.Rename? || e.Renumber?
  }

  lemma MessageStepKeepsBoxes(s: Server, e: Step)
    requires Enabled(s, e) && !Structural(e)
    ensures SameBoxes(s, Apply(s, e))
  {
    hide Denotes;
  }

  lemma LostKeepsUids(box: Mailbox, uids: set<nat>)
    requires UidsBelowNext(box)
    ensures UidsBelowNext(Lost(box, uids)) && Lost(box, uids).uidnext == box.uidnext
  {
  }

  lemma ReceivedKeepsUids(box: Mailbox, uids: set<nat>, p: Placement, arriving: map<nat, Message>)
    requires UidsBelowNext(box) && Fits(p, uids, box.uidnext) && arriving.Keys == p.back.Keys
    ensures UidsBelowNext(Received(box, p, arriving))
  {
  }

  lemma MoveKeepsUids(s: Server, from: string, uids: set<nat>, to: string, p: Placement, n: string)
    requires CanTransfer(s, from, uids, to, p) && n in s.boxes && UidsBelowNext(s.boxes[n])
    ensures n in Move(s, from, uids, to, p).boxes && UidsBelowNext(Move(s, from, uids, to, p).boxes[n])
  {
    hide UidsBelowNext, Received, Lost;
    var src := s.boxes[from];
    LostKeepsUids(s.boxes[n], uids);
    if n == to {
      var left := if n == from then Lost(src, uids) else s.boxes[n];
      ReceivedKeepsUids(left, uids, p, map a | a in p.back :: src.msgs[p.back[a]]);
    }
  }

  lemma CopyKeepsUids(s: Server, from: string, uids: set<nat>, to: string, p: Placement, n: string)
    requires CanTransfer(s, from, uids, to, p) && n in s.boxes && UidsBelowNext(s.boxes[n])
    ensures n in Copy(s, from, uids, to, p).boxes && UidsBelowNext(Copy(s, from, uids, to, p).boxes[n])
  {
    hide UidsBelowNext, Received;
    if n == to {
      ReceivedKeepsUids(s.boxes[n], uids, p, map a | a in p.back :: s.boxes[from].msgs[p.back[a]].(id := s.nextId + a));
    }
  }

  lemma MessageStepKeepsUids(s: Server, e: Step, n: string)
    requires Enabled(s, e) && !Structural(e) && n in s.boxes && UidsBelowNext(s.boxes[n])
    ensures n in Apply(s, e).boxes && UidsBelowNext(Apply(s, e).boxes[n])
  {
    if e.Transfer? {
      hide UidsBelowNext, CanTransfer, Move;
      MoveKeepsUids(s, e.from, e.uids, e.to, e.p, n);
    } else if e.Duplicate? {
      hide UidsBelowNext, CanTransfer, Copy;
      CopyKeepsUids(s, e.from, e.uids, e.to, e.p, n);
    } else {
      hide Denotes, Fits;
    }
  }

  lemma MessageStepKeepsValid(s: Server, e: Step)
    requires Valid(s) && Enabled(s, e) && !Structural(e)
    ensures Valid(Apply(s, e))
  {
    hide Apply, Enabled;
    var t := Apply(s, e);
    MessageStepKeepsBoxes(s, e);
    forall n | n in t.boxes ensures UidsBelowNext(t.boxes[n]) {
      assert BoxValid(s, n, s.boxes[n]);
      MessageStepKeepsUids(s, e, n);
    }
    SameBoxesKeepValid(s, t);
  }

  lemma MailboxAdded(s: Server, t: Server, box: string, b: Mailbox)
    requires Valid(s) && t.boxes == s.boxes[box := b] && b.birth == s.nextBirth && t.nextBirth == s.nextBirth + 1
    requires (box, b.uidvalidity) !in s.used && t.used == s.used[(box, b.uidvalidity) := b.birth]
    requires UidsBelowNext(b)
    ensures Valid(t)
  {
    forall n | n in t.boxes ensures BoxValid(t, n, t.boxes[n]) {
      if n in s.boxes {
        assert BoxValid(s, n, s.boxes[n]);
      }
    }
  }

  lemma RenameKeepsValid(s: Server, e: Step)
    requires Valid(s) && Enabled(s, e) && (e.Rename? || e.Delete?)
    ensures Valid(Apply(s, e))
  {
    hide Denotes, Fits;
    var t := Apply(s, e);
    forall n | n in t.boxes ensures BoxValid(t, n, t.boxes[n]) {
      if n in s.boxes {
        assert BoxValid(s, n, s.boxes[n]);
      } else {
        assert BoxValid(s, e.from, s.boxes[e.from]);
      }
    }
  }

  lemma StructuralStepKeepsValid(s: Server, e: Step)
    requires Valid(s) && Enabled(s, e) && Structural(e)
    ensures Valid(Apply(s, e))
  {
    if e.Rename? || e.Delete? {
      RenameKeepsValid(s, e);
    } else {
      hide Valid, Denotes;
      var t := Apply(s, e);
      MailboxAdded(s, t, e.box, t.boxes[e.box]);
    }
  }

  lemma StepKeepsValid(s: Server, e: Step)
    requires Valid(s) && Enabled(s, e)
    ensures Valid(Apply(s, e))
  {
    hide Valid, Apply, Enabled;
    if Structural(e) {
      StructuralStepKeepsValid(s, e);
    } else {
      MessageStepKeepsValid(s, e);
    }
  }

  /** Where the message now at (box, uid) was before the step; None when the step made it. */
  function Origin(s: Server, e: Step, box: string, uid: nat): Option<(string, nat)> {
    match e
    case Deliver(b, _, _, u) => if box == b && uid == u then None else Some((box, uid))
    case Transfer(from, _, to, p) => if box == to && uid in p.back then Some((from, p.back[uid])) else Some((box, uid))
    case Duplicate(_, _, to, p) => if box == to && uid in p.back then None else Some((box, uid))
    case Rename(from, to, _) => if box == to then Some((from, uid)) else Some((box, uid))
    case Renumber(b, _, p) => if box == b && uid in p.back then Some((box, p.back[uid])) else Some((box, uid))
    case _ => Some((box, uid))
  }

  lemma MessageOrigin(s: Server, e: Step, box: string, uid: nat, id: nat)
    requires Enabled(s, e) && !Structural(e) && At(Apply(s, e), box, uid, id)
    ensures match Origin(s, e, box, uid)
            case Some((b, u)) => At(s, b, u, id)
            case None => s.nextId <= id < Apply(s, e).nextId
    ensures s.nextId <= Apply(s, e).nextId
  {
    hide Denotes;
  }

  lemma StructuralOrigin(s: Server, e: Step, box: string, uid: nat, id: nat)
    requires Enabled(s, e) && Structural(e) && At(Apply(s, e), box, uid, id)
    ensures match Origin(s, e, box, uid)
            case Some((b, u)) => At(s, b, u, id)
            case None => false
    ensures s.nextId == Apply(s, e).nextId
  {
    hide Denotes;
  }

  lemma OriginMeaning(s: Server, e: Step, box: string, uid: nat, id: nat)
    requires Enabled(s, e) && At(Apply(s, e), box, uid, id)
    ensures match Origin(s, e, box, uid)
            case Some((b, u)) => At(s, b, u, id)
            case None => s.nextId <= id < Apply(s, e).nextId
    ensures s.nextId <= Apply(s, e).nextId
  {
    hide Enabled, Apply, Origin, At;
    if Structural(e) {
      StructuralOrigin(s, e, box, uid, id);
    } else {
      MessageOrigin(s, e, box, uid, id);
    }
  }

  lemma ValidUids(s: Server)
    requires Valid(s)
    ensures forall x :: x in s.boxes ==> UidsBelowNext(s.boxes[x])
  {
    assert forall x :: x in s.boxes ==> BoxValid(s, x, s.boxes[x]);
  }

  lemma OriginInjective(s: Server, e: Step, n: string, u: nat, m: string, v: nat, id: nat)
    requires Valid(s) && Enabled(s, e) && At(Apply(s, e), n, u, id) && At(Apply(s, e), m, v, id)
    requires Origin(s, e, n, u) == Origin(s, e, m, v)
    ensures n == m && u == v
  {
    if e.Transfer? {
      hide Valid, Denotes, Canonical;
      assert forall x :: x in s.boxes ==> UidsBelowNext(s.boxes[x]) by { ValidUids(s); }
    } else if e.Duplicate? {
      hide Valid, Denotes, Canonical, Fits;
    } else {
      hide Valid, Denotes;
    }
  }

  /** No step of any client ever puts one message in two places. */
  lemma StepKeepsOnePlaceEach(s: Server, e: Step)
    requires Valid(s) && OnePlaceEach(s) && Enabled(s, e)
    ensures OnePlaceEach(Apply(s, e))
  {
    hide Valid, Enabled, Apply, Origin, At;
    var t := Apply(s, e);
    forall n, u: nat, id: nat | At(t, n, u, id) ensures id < t.nextId {
      OriginMeaning(s, e, n, u, id);
    }
    forall n, u: nat, m, v: nat, id: nat | At(t, n, u, id) && At(t, m, v, id) ensures n == m && u == v {
      OriginMeaning(s, e, n, u, id);
      OriginMeaning(s, e, m, v, id);
      OriginInjective(s, e, n, u, m, v, id);
    }
  }

  // ----- what a COPYUID stays good for -----

  /**
   * Under (name, validity), the UIDs of ids still mean the messages they meant: present or
   * gone, never another one, wherever that mailbox is now.
   */
  ghost predicate Traced(s: Server, name: string, validity: nat, ids: map<nat, nat>) {
    && (name, validity) in s.used
    && forall n :: n in s.boxes && s.boxes[n].birth == s.used[(name, validity)] ==> BoxTraces(s.boxes[n], ids)
  }

  ghost predicate BoxTraces(box: Mailbox, ids: map<nat, nat>) {
    forall u :: u in ids ==> u < box.uidnext && (u in box.msgs ==> box.msgs[u].id == ids[u])
  }

  lemma SameBoxesKeepTraced(s: Server, t: Server, name: string, validity: nat, ids: map<nat, nat>)
    requires SameBoxes(s, t) && Traced(s, name, validity, ids)
    requires forall n :: n in s.boxes && BoxTraces(s.boxes[n], ids) ==> BoxTraces(t.boxes[n], ids)
    ensures Traced(t, name, validity, ids)
  {
    hide BoxTraces;
    forall n | n in t.boxes && t.boxes[n].birth == t.used[(name, validity)] ensures BoxTraces(t.boxes[n], ids) {
      assert SameBox(s.boxes[n], t.boxes[n]);
    }
  }

  lemma StepKeepsTraced(s: Server, e: Step, name: string, validity: nat, ids: map<nat, nat>)
    requires Valid(s) && Enabled(s, e) && Traced(s, name, validity, ids)
    ensures Traced(Apply(s, e), name, validity, ids)
  {
    if Structural(e) {
      hide BoxTraces, Denotes;
      StructuralStepKeepsTraced(s, e, name, validity, ids);
    } else {
      hide BoxTraces, Apply, Enabled, Valid;
      MessageStepKeepsBoxes(s, e);
      forall n | n in s.boxes && BoxTraces(s.boxes[n], ids) ensures BoxTraces(Apply(s, e).boxes[n], ids) {
        MessageStepKeepsBoxTraces(s, e, n, ids);
      }
      SameBoxesKeepTraced(s, Apply(s, e), name, validity, ids);
    }
  }

  lemma LostKeepsBoxTraces(box: Mailbox, uids: set<nat>, ids: map<nat, nat>)
    requires BoxTraces(box, ids)
    ensures BoxTraces(Lost(box, uids), ids)
  {
  }

  lemma ReceivedKeepsBoxTraces(box: Mailbox, uids: set<nat>, p: Placement, arriving: map<nat, Message>, ids: map<nat, nat>)
    requires BoxTraces(box, ids) && Fits(p, uids, box.uidnext) && arriving.Keys == p.back.Keys
    ensures BoxTraces(Received(box, p, arriving), ids)
  {
  }

  lemma MoveKeepsBoxTraces(s: Server, from: string, uids: set<nat>, to: string, p: Placement, n: string, ids: map<nat, nat>)
    requires CanTransfer(s, from, uids, to, p) && n in s.boxes && BoxTraces(s.boxes[n], ids)
    ensures n in Move(s, from, uids, to, p).boxes && BoxTraces(Move(s, from, uids, to, p).boxes[n], ids)
  {
    hide BoxTraces, Received, Lost;
    var src := s.boxes[from];
    LostKeepsBoxTraces(s.boxes[n], uids, ids);
    if n == to {
      var left := if n == from then Lost(src, uids) else s.boxes[n];
      assert left.uidnext == s.boxes[n].uidnext by { LostKeepsNext(src, uids); }
      ReceivedKeepsBoxTraces(left, uids, p, map a | a in p.back :: src.msgs[p.back[a]], ids);
    }
  }

  lemma CopyKeepsBoxTraces(s: Server, from: string, uids: set<nat>, to: string, p: Placement, n: string, ids: map<nat, nat>)
    requires CanTransfer(s, from, uids, to, p) && n in s.boxes && BoxTraces(s.boxes[n], ids)
    ensures n in Copy(s, from, uids, to, p).boxes && BoxTraces(Copy(s, from, uids, to, p).boxes[n], ids)
  {
    hide BoxTraces, Received;
    if n == to {
      ReceivedKeepsBoxTraces(s.boxes[n], uids, p, map a | a in p.back :: s.boxes[from].msgs[p.back[a]].(id := s.nextId + a), ids);
    }
  }

  lemma MessageStepKeepsBoxTraces(s: Server, e: Step, n: string, ids: map<nat, nat>)
    requires Enabled(s, e) && !Structural(e) && n in s.boxes && BoxTraces(s.boxes[n], ids)
    ensures n in Apply(s, e).boxes && BoxTraces(Apply(s, e).boxes[n], ids)
  {
    if e.Transfer? {
      hide BoxTraces, CanTransfer, Move;
      MoveKeepsBoxTraces(s, e.from, e.uids, e.to, e.p, n, ids);
    } else if e.Duplicate? {
      hide BoxTraces, CanTransfer, Copy;
      CopyKeepsBoxTraces(s, e.from, e.uids, e.to, e.p, n, ids);
    } else {
      hide Denotes, Fits;
    }
  }

  lemma LostKeepsNext(box: Mailbox, uids: set<nat>)
    ensures Lost(box, uids).uidnext == box.uidnext
  {
  }

  lemma StructuralStepKeepsTraced(s: Server, e: Step, name: string, validity: nat, ids: map<nat, nat>)
    requires Valid(s) && Enabled(s, e) && Traced(s, name, validity, ids) && Structural(e)
    ensures Traced(Apply(s, e), name, validity, ids)
  {
    var t := Apply(s, e);
    assert t.used[(name, validity)] == s.used[(name, validity)] < s.nextBirth;
    forall n | n in t.boxes && t.boxes[n].birth == t.used[(name, validity)] ensures BoxTraces(t.boxes[n], ids) {
      if e.Rename? && n == e.to {
        assert BoxTraces(s.boxes[e.from], ids);
      } else {
        assert BoxTraces(s.boxes[n], ids);
      }
    }
  }

  /** No interleaving of other clients' steps makes a recorded UID name a stranger. */
  lemma {:induction false} RunKeepsTraced(s: Server, steps: seq<Step>, name: string, validity: nat, ids: map<nat, nat>)
    requires Valid(s) && OnePlaceEach(s) && Traced(s, name, validity, ids)
    ensures Valid(After(s, steps)) && OnePlaceEach(After(s, steps)) && Traced(After(s, steps), name, validity, ids)
    decreases |steps|
  {
    hide Valid, OnePlaceEach, Traced, Enabled, Apply;
    if steps == [] {
    } else {
      var e := steps[0];
      if Enabled(s, e) {
        StepKeepsValid(s, e);
        StepKeepsOnePlaceEach(s, e);
        StepKeepsTraced(s, e, name, validity, ids);
      }
      RunKeepsTraced(if Enabled(s, e) then Apply(s, e) else s, steps[1..], name, validity, ids);
    }
  }

  /** The selected mailbox under the recorded UIDVALIDITY holds no stranger at a recorded UID. */
  lemma TracedAt(s: Server, name: string, validity: nat, ids: map<nat, nat>)
    requires Valid(s) && Traced(s, name, validity, ids) && name in s.boxes && s.boxes[name].uidvalidity == validity
    ensures BoxTraces(s.boxes[name], ids)
  {
  }
}
