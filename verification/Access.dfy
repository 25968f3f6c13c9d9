/** Who is let in and at what price, over whole runs: the last edit that names a ban, a whitelist entry, a user's right,
    token or address, or the leech status decides. */
module Access {
  import opened Words
  import opened Options
  import opened Utility
  import opened Bans
  import opened Ledger
  import opened Tracker

  // ---------------------------------------------------------------- what is not an edit changes no right

  ghost predicate SameRights(w: World, w': World) {
    && w'.banned == w.banned && w'.whitelist == w.whitelist && w'.freeleech == w.freeleech
    && w'.passkeys == w.passkeys && w'.mode == w.mode && |w'.users| == |w.users|
    && forall h :: 0 <= h < |w.users| ==>
         w'.users[h].(downloaded := 0, uploaded := 0) == w.users[h].(downloaded := 0, uploaded := 0)
  }

  lemma BookKeepsRights(w: World, r: Announcement, v: Visit)
    requires r.infoHash in w.torrents
    ensures SameRights(w, Book(w, r, v))
  {
    hide TorrentAfter, PeerRowOf, TorrentRowOf, UpdateGauges, Added, UserRows;
  }

  lemma AnnounceKeepsRights(w: World, r: Announcement)
    ensures SameRights(w, Announce(w, r))
  {
    hide Book, VisitOf, Refusal;
    if Refusal(w, r).None? {
      HasTorrent(w, r);
      var e := Enter(w, r);
      BookKeepsRights(e, r, VisitOf(e, e.torrents[r.infoHash], r));
    }
  }

  lemma HasTorrent(w: World, r: Announcement)
    requires Refusal(w, r).None?
    ensures r.infoHash in Enter(w, r).torrents
  {
    hide Whitelisted;
  }

  lemma {:induction false} SweepKeepsRights(w: World, plan: seq<Turn>, now: int)
    ensures SameRights(w, Sweep(w, plan, now)) && Sweep(w, plan, now).users == w.users
  {
    if plan != [] {
      SweepKeepsRights(w, plan[..|plan| - 1], now);
      hide SweepPeers, TorrentRowOf, Empty;
    }
  }

  lemma OtherStepKeepsRights(w: World, s: Step)
    requires !s.DoEdit?
    ensures SameRights(w, Take(w, s))
  {
    hide Announce, Sweep;
    match s
    case DoAnnounce(r) => AnnounceKeepsRights(w, r);
    case DoSweep(plan, now) => SweepKeepsRights(w, plan, now);
    case _ =>
  }

  // ---------------------------------------------------------------- settings

  /** What may be so or not: a text is banned, a prefix is on the whitelist, everything is free; the user with this
      handle may leech, has a token for this torrent id, or may come from this address. */
  datatype Setting =
    | Banned(ip: string)
    | Listed(prefix: string)
    | Freeleech
    | MayLeech(handle: nat)
    | Token(handle: nat, torrentID: nat)
    | From(handle: nat, ip: string)

  predicate Is(w: World, x: Setting) {
    match x
    case Banned(ip) => ip in w.banned
    case Listed(prefix) => prefix in w.whitelist
    case Freeleech => w.freeleech
    case MayLeech(h) => h < |w.users| && w.users[h].authorized
    case Token(h, id) => h < |w.users| && id in w.users[h].tokens
    case From(h, ip) => h < |w.users| && ip in w.users[h].restrictions
  }

  /** What a change to the user x is about says of x; a token is for the id that the torrent has now. */
  ghost function UserSays(w: World, change: UserEdit, x: Setting): Option<bool> {
    match change
    case Authorize(b) => if x.MayLeech? then Some(b) else None
    case AddToken(ih) =>
      if x.Token? && ih in w.torrents && w.torrents[ih].id == x.torrentID then Some(true) else None
    case RemoveToken(ih) =>
      if x.Token? && ih in w.torrents && w.torrents[ih].id == x.torrentID then Some(false) else None
    case AddRestriction(ip) => if x.From? && ReadsAs(x.ip, ip % 0x1_0000_0000) then Some(true) else None
    case RemoveRestriction(ip) => if x.From? && ReadsAs(x.ip, ip % 0x1_0000_0000) then Some(false) else None
  }

  predicate OfUser(w: World, passkey: string, x: Setting) {
    && (x.MayLeech? || x.Token? || x.From?) && x.handle < |w.users|
    && passkey in w.passkeys && w.passkeys[passkey] == x.handle
  }

  /** What a step says of x; None if it does not speak of it. A ban speaks of the addresses of its interval, an edit of
      a user of the one that has the passkey then, and a new user may leech. */
  ghost function Says(w: World, s: Step, x: Setting): Option<bool> {
    if !s.DoEdit? then None
    else
      match s.edit
      case AddBan(from, to) => if x.Banned? && Covers(from, to, x.ip) then Some(true) else None
      case RemoveBan(from, to) => if x.Banned? && Covers(from, to, x.ip) then Some(false) else None
      case AddWhitelist(p) => if x == Listed(p) then Some(true) else None
      case EditWhitelist(o, n) =>
        if x == Listed(n) then Some(true) else if x == Listed(o) then Some(false) else None
      case RemoveWhitelist(p) => if x == Listed(p) then Some(false) else None
      case SetLeechStatus(b) => if x.Freeleech? then Some(b) else None
      case AddUser(p, _) => if x == MayLeech(|w.users|) && p !in w.passkeys then Some(true) else None
      case UpdateUser(p, change) => if OfUser(w, p, x) then UserSays(w, change, x) else None
      case ChangePasskey(_, _) => None
      case RemoveUser(_) => None
  }

  lemma {:induction false} WithoutIs(order: seq<string>, id: string, x: string)
    ensures x in Without(order, id) <==> x in order && x != id
  {
    if order != [] {
      var n := |order| - 1;
      WithoutIs(order[..n], id, x);
      assert order == order[..n] + [order[n]];
    }
  }

  lemma AddressIs(ip: nat, text: string)
    ensures text == Long2Ip(U32(ip)) <==> ReadsAs(text, ip % 0x1_0000_0000)
  {
    Long2IpReads(text, U32(ip));
    hide ReadsAs, Long2Ip;
  }

  lemma UserEditSays(w: World, u: UserV, change: UserEdit, x: Setting)
    requires x.MayLeech? || x.Token? || x.From?
    ensures var u' := UserEdited(u, change, w.torrents);
            var says := UserSays(w, change, x);
            match x
            case MayLeech(_) => u'.authorized <==> if says.Some? then says.value else u.authorized
            case Token(_, id) => id in u'.tokens <==> if says.Some? then says.value else id in u.tokens
            case From(_, ip) => ip in u'.restrictions <==> if says.Some? then says.value else ip in u.restrictions
            case _ => true
  {
    hide Long2Ip, U32, ReadsAs;
    if x.From? && (change.AddRestriction? || change.RemoveRestriction?) { AddressIs(change.ip, x.ip); }
  }

  lemma EditSays(w: World, e: Edit, x: Setting)
    ensures var says := Says(w, DoEdit(e), x);
            Is(Edited(w, e), x) <==> if says.Some? then says.value else Is(w, x)
  {
    hide Texts, U32, UserEdited, Without, Covers, ReadsAs, UserSays;
    match e
    case AddBan(from, to) => if x.Banned? { TextsRead(from, to, x.ip); }
    case RemoveBan(from, to) => if x.Banned? { TextsRead(from, to, x.ip); }
    case EditWhitelist(o, n) => if x.Listed? { WithoutIs(w.whitelist, o, x.prefix); }
    case RemoveWhitelist(p) => if x.Listed? { WithoutIs(w.whitelist, p, x.prefix); }
    case UpdateUser(p, change) => if OfUser(w, p, x) { UserEditSays(w, w.users[x.handle], change, x); }
    case _ =>
  }

  lemma RightsAreSettings(w: World, w': World, x: Setting)
    requires SameRights(w, w')
    ensures Is(w', x) <==> Is(w, x)
  {
    if (x.MayLeech? || x.Token? || x.From?) && x.handle < |w.users| {
      var u, u' := w.users[x.handle], w'.users[x.handle];
      assert u'.(downloaded := 0, uploaded := 0) == u.(downloaded := 0, uploaded := 0);
    }
  }

  lemma TakeSays(w: World, s: Step, x: Setting)
    ensures var says := Says(w, s, x);
            Is(Take(w, s), x) <==> if says.Some? then says.value else Is(w, x)
  {
    hide Announce, Sweep, Edited, Is, SameRights;
    if s.DoEdit? {
      EditSays(w, s.edit, x);
    } else {
      OtherStepKeepsRights(w, s);
      RightsAreSettings(w, Take(w, s), x);
    }
  }

  /** Whether x is so after the steps: the last step that speaks of it decides. */
  ghost predicate Stands(w: World, steps: seq<Step>, x: Setting) {
    if steps == [] then Is(w, x)
    else
      var n := |steps| - 1;
      var says := Says(Run(w, steps[..n]), steps[n], x);
      if says.Some? then says.value else Stands(w, steps[..n], x)
  }

  lemma {:induction false} RunSettings(w: World, steps: seq<Step>, x: Setting)
    ensures Is(Run(w, steps), x) <==> Stands(w, steps, x)
  {
    hide Is, Says, Take;
    if steps != [] {
      var n := |steps| - 1;
      RunSettings(w, steps[..n], x);
      TakeSays(Run(w, steps[..n]), steps[n], x);
    }
  }

  // ---------------------------------------------------------------- announces

  /** The handle a passkey stands for on a private tracker. */
  predicate Named(w: World, passkey: string) { passkey in w.passkeys && w.passkeys[passkey] < |w.users| }

  predicate Recognized(w: World, r: Announcement) { w.mode.Private? ==> Named(w, r.passkey) }

  /** An announce is accepted if and only if its address is not banned, its peer id has 20 bytes and starts with an
      entry of the whitelist, if there is one, its torrent is known, unless the tracker is public,
        and on a private tracker its
      passkey is that of a user who may leech and may come from this address, or from any. */
  lemma AcceptedIff(w: World, r: Announcement)
    ensures Refusal(w, r).None? <==>
              && Recognized(w, r)
              && r.ip !in w.banned
              && |r.peerID| == 20
              && (w.whitelist == [] || exists i :: 0 <= i < |w.whitelist| && |w.whitelist[i]| <= 20
                                                   && r.peerID[..|w.whitelist[i]|] == w.whitelist[i])
              && (w.mode.Public? || r.infoHash in w.torrents)
              && (w.mode.Private? ==>
                    var u := w.users[w.passkeys[r.passkey]];
                    u.authorized && (u.restrictions == {} || r.ip in u.restrictions))
  {}

  /** Which reason is given: the first test that fails, in this order. */
  lemma ReasonOf(w: World, r: Announcement)
    ensures var known := Recognized(w, r);
            var banned := r.ip in w.banned;
            var away := w.mode.Private? && known
                        && var u := w.users[w.passkeys[r.passkey]]; u.restrictions != {} && r.ip !in u.restrictions;
            var strange := w.whitelist != [] && forall i :: 0 <= i < |w.whitelist| ==> !(w.whitelist[i] <= r.peerID);
            var missing := !w.mode.Public? && r.infoHash !in w.torrents;
            && (Refusal(w, r) == Some("passkey not found") <==> !known)
            && (Refusal(w, r) == Some("ip not associated with account") <==> known && !banned && away)
            && (Refusal(w, r) == Some("invalid peer id") <==> known && !banned && !away && |r.peerID| != 20)
            && (Refusal(w, r) == Some("client not in whitelist")
                <==> known && !banned && !away && |r.peerID| == 20 && strange)
            && (Refusal(w, r) == Some("torrent not found")
                <==> known && !banned && !away && |r.peerID| == 20 && !strange && missing)
  {}

  /** A scrape is answered if and only if its passkey is known, where one is needed, it asks for something, and its
      address is not banned and allowed to the user. */
  lemma TurnedIff(w: World, passkey: string, ip: string, hashes: seq<string>)
    ensures Turned(w, passkey, ip, hashes).None? <==>
              && (w.mode.Private? ==> Named(w, passkey))
              && hashes != [] && ip !in w.banned
              && (w.mode.Private? ==>
                    var u := w.users[w.passkeys[passkey]]; u.restrictions == {} || ip in u.restrictions)
  {}

  lemma BannedIsSecond(w: World, r: Announcement)
    ensures Refusal(w, r) == Some("banned ip") <==> Recognized(w, r) && r.ip in w.banned
    ensures r.ip in w.banned ==> Refusal(w, r).Some? && Announce(w, r) == w
  {
    hide Whitelisted, Accept, Enter;
  }

  /** After any run an announce is refused for a ban if and only if its passkey, where one is needed, is known and the
      last ban or lifting whose interval holds its address was a ban. */
  lemma BannedIsRefused(w: World, steps: seq<Step>, r: Announcement)
    ensures var w' := Run(w, steps);
            var barred := Stands(w, steps, Banned(r.ip));
            && (Refusal(w', r) == Some("banned ip") <==> Recognized(w', r) && barred)
            && (barred ==> Announce(w', r) == w')
  {
    RunSettings(w, steps, Banned(r.ip));
    BannedIsSecond(Run(w, steps), r);
    hide Announce, Refusal, Recognized, Stands, Run;
  }

  /** The step lifts a ban of the address x. */
  predicate Lifts(s: Step, x: nat) { s.DoEdit? && s.edit.RemoveBan? && Within(x, s.edit.from, s.edit.to) }

  /** From the ban of an interval on, until a lifting that covers the address, no announce whose address reads as one of
      the interval has any effect. */
  lemma BanHolds(w: World, from: nat, to: nat, steps: seq<Step>, x: nat, r: Announcement)
    requires ReadsAs(r.ip, x) && Within(x, from, to)
    requires forall i :: 0 <= i < |steps| ==> !Lifts(steps[i], x)
    ensures var w' := Run(w, [DoEdit(Edit.AddBan(from, to))] + steps);
            Refusal(w', r) == Some(if Recognized(w', r) then "banned ip" else "passkey not found")
              && Announce(w', r) == w'
  {
    hide Run, ReadsAs, Within, Stands, Lifts;
    var ban := DoEdit(Edit.AddBan(from, to));
    StaysBanned(w, from, to, steps, x, r.ip);
    BannedIsRefused(w, [ban] + steps, r);
    KnownFirst(Run(w, [ban] + steps), r);
  }

  lemma KnownFirst(w: World, r: Announcement)
    ensures Refusal(w, r) == Some("passkey not found") <==> !Recognized(w, r)
  {
    ReasonOf(w, r);
    hide Refusal, Recognized;
  }

  lemma {:induction false} StaysBanned(w: World, from: nat, to: nat, steps: seq<Step>, x: nat, text: string)
    requires ReadsAs(text, x) && Within(x, from, to)
    requires forall i :: 0 <= i < |steps| ==> !Lifts(steps[i], x)
    ensures Stands(w, [DoEdit(Edit.AddBan(from, to))] + steps, Banned(text))
  {
    hide ReadsAs, Within, Run, Covers;
    var ban := DoEdit(Edit.AddBan(from, to));
    if steps == [] {
      assert [ban] + steps == [ban];
      CoversOne(from, to, text, x);
    } else {
      var n := |steps| - 1;
      StaysBanned(w, from, to, steps[..n], x, text);
      assert ([ban] + steps)[..n + 1] == [ban] + steps[..n];
      if steps[n].DoEdit? && steps[n].edit.RemoveBan? {
        CoversOne(steps[n].edit.from, steps[n].edit.to, text, x);
        assert !Lifts(steps[n], x);
      }
    }
  }

  /** After any run of a private tracker: the user of the passkey gets in if and only if the last word on its right to
      leech was yes, it is bound to no address or the last word on this one was yes, and the last word on the address,
        as
      far as bans go, was not a ban; besides what `AcceptedIff` asks of peer id, whitelist and torrent. */
  lemma UserGetsIn(w: World, steps: seq<Step>, r: Announcement)
    requires var w' := Run(w, steps); w'.mode.Private? && Named(w', r.passkey)
    ensures var w' := Run(w, steps);
            var h := w'.passkeys[r.passkey];
            Refusal(w', r).None? <==>
              && Stands(w, steps, MayLeech(h))
              && (w'.users[h].restrictions == {} || Stands(w, steps, From(h, r.ip)))
              && !Stands(w, steps, Banned(r.ip))
              && |r.peerID| == 20 && r.infoHash in w'.torrents
              && (w'.whitelist == [] || exists p: string :: Stands(w, steps, Listed(p)) && p <= r.peerID)
  {
    hide Run, Stands, Refusal;
    var w' := Run(w, steps);
    var h := w'.passkeys[r.passkey];
    AcceptedIff(w', r);
    RunSettings(w, steps, MayLeech(h));
    RunSettings(w, steps, From(h, r.ip));
    RunSettings(w, steps, Banned(r.ip));
    forall p: string { RunSettings(w, steps, Listed(p)); }
    if |r.peerID| == 20 { PrefixListed(w', r.peerID); }
  }

  lemma PrefixListed(w: World, id: string)
    requires |id| == 20
    ensures (exists i :: 0 <= i < |w.whitelist| && |w.whitelist[i]| <= 20 && id[..|w.whitelist[i]|] == w.whitelist[i])
            <==> exists p: string :: Is(w, Listed(p)) && p <= id
  {
    if p: string :| Is(w, Listed(p)) && p <= id {
      var i :| 0 <= i < |w.whitelist| && w.whitelist[i] == p;
    }
    if i :| 0 <= i < |w.whitelist| && |w.whitelist[i]| <= 20 && id[..|w.whitelist[i]|] == w.whitelist[i] {
      assert Is(w, Listed(w.whitelist[i])) && w.whitelist[i] <= id;
    }
  }

  // ---------------------------------------------------------------- passkeys and torrents

  /** Whom a passkey stands for after a step: only changing a passkey, adding and removing a user touch it. A change
      moves the user to the new passkey unless another user has that, who then keeps it. */
  lemma PasskeysMove(w: World, s: Step, p: string)
    ensures var w' := Take(w, s);
            var was := if p in w.passkeys then Some(w.passkeys[p]) else None;
            (if p in w'.passkeys then Some(w'.passkeys[p]) else None) ==
            if !s.DoEdit? then was
            else
              match s.edit
              case ChangePasskey(o, n) =>
                if o !in w.passkeys then was
                else if p == n && (n == o || n !in w.passkeys) then Some(w.passkeys[o])
                else if p == o then None
                else was
              case AddUser(q, _) => if p == q && p !in w.passkeys then Some(|w.users|) else was
              case RemoveUser(q) => if p == q then None else was
              case _ => was
  {
    hide Announce, Sweep, Texts, UserEdited, Without;
    if !s.DoEdit? { OtherStepKeepsRights(w, s); }
  }

  /** Users keep their place and their id whatever happens, and a new one, added under a passkey that is free, comes
      last: with this id, nothing pending, the right to leech, no token and bound to no address. */
  lemma UsersMove(w: World, s: Step)
    ensures var us, us' := w.users, Take(w, s).users;
            && |us| <= |us'| && (forall h :: 0 <= h < |us| ==> us'[h].id == us[h].id)
            && if s.DoEdit? && s.edit.AddUser? && s.edit.passkey !in w.passkeys then
                 us' == us + [UserV(s.edit.id, 0, 0, true, {}, {})]
               else |us'| == |us|
  {
    hide Announce, Sweep, Texts, UserEdited, Without;
    if !s.DoEdit? {
      OtherStepKeepsRights(w, s);
      forall h | 0 <= h < |w.users| ensures Take(w, s).users[h].id == w.users[h].id {
        assert Take(w, s).users[h].(downloaded := 0, uploaded := 0) == w.users[h].(downloaded := 0, uploaded := 0);
      }
    } else if s.edit.UpdateUser? && s.edit.passkey in w.passkeys && w.passkeys[s.edit.passkey] < |w.users| {
      EditKeepsId(w.users[w.passkeys[s.edit.passkey]], s.edit.change, w.torrents);
    }
  }

  lemma EditKeepsId(u: UserV, change: UserEdit, torrents: map<string, TorrentV>)
    ensures UserEdited(u, change, torrents).id == u.id
  {
    hide Long2Ip;
  }

  /** A changed passkey, on a private tracker: the new one, if it was free, is answered for the same user as the old one
      was, with all that user's rights; the old one is unknown; if the new one was taken,
        it stays with its owner and the
      other user has no passkey left. */
  lemma PasskeyChange(w: World, old_: string, new_: string, p: string)
    requires w.mode.Private? && Named(w, old_) && old_ != new_
    requires p in w.passkeys && w.passkeys[p] == w.passkeys[old_] ==> p == old_
    ensures var w' := Take(w, DoEdit(ChangePasskey(old_, new_)));
            && w'.users == w.users && !Named(w', old_)
            && (new_ !in w.passkeys ==> UserOf(w', new_) == UserOf(w, old_) && UserOf(w, old_).Some?)
            && (new_ in w.passkeys ==>
                  UserOf(w', new_) == UserOf(w, new_)
                  && (p in w'.passkeys ==> w'.passkeys[p] != w.passkeys[old_]))
  {
    PasskeysMove(w, DoEdit(ChangePasskey(old_, new_)), old_);
    PasskeysMove(w, DoEdit(ChangePasskey(old_, new_)), new_);
    PasskeysMove(w, DoEdit(ChangePasskey(old_, new_)), p);
  }

  /** Adding a torrent whose info hash is taken at most sets its discount, and otherwise gives one without peers;
      setting a discount does nothing else; deleting removes this torrent only. */
  lemma TorrentEdits(w: World, s: Step, ih: string)
    requires s.DoAddTorrent? || s.DoSetFree? || s.DoDeleteTorrent?
    ensures var ts, ts' := w.torrents, Take(w, s).torrents;
            && (ih != s.infoHash ==>
                  (ih in ts' <==> ih in ts) && (ih in ts ==> ts'[ih] == ts[ih]))
            && (ih == s.infoHash ==>
                  match s
                  case DoAddTorrent(_, id, free) =>
                    ih in ts'
                    && ts'[ih] == (if ih !in ts then
                                     TorrentV(id, free, 0, 0, map[], map[], map[], map[], [], 0)
                                   else if free > 0 then ts[ih].(free := free)
                                   else ts[ih])
                  case DoSetFree(_, free) =>
                    (ih in ts' <==> ih in ts) && (ih in ts ==> ts'[ih] == ts[ih].(free := free))
                  case _ => ih !in ts')
  {}

  // ---------------------------------------------------------------- the peer id of a request

  /** However a client writes the 20 bytes of its peer id, escaping any of them, the announce is made under these
      bytes. */
  lemma PeerIdReads(r: Announcement, hashes: seq<string>, bytes: string, ws: seq<Writing>)
    requires hashes != [] && |bytes| == 20 && Writable(bytes, ws) && r.peerID == PercentEncode(bytes, ws)
    ensures Normal(r, hashes) == r.(infoHash := hashes[0], peerID := bytes)
  {
    EncodedLength(bytes, ws);
    DecodeOfEncode(bytes, ws);
    hide PercentDecode, PercentEncode, Writable;
  }
}
