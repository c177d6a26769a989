/** The five console session slots of a browser, and the choice of a slot for a new session. */
module SessionSlots {

  datatype Cookie = NoCookie | Cookie(id: string, secret: string)

  /** A console session row; `bound` is the check of its identity and principal. */
  datatype Session = Session(agent: int, secret: string, active: bool, idleExpiresAt: int, absoluteExpiresAt: int,
                             bound: bool)

  const SLOTS: nat := 5

  datatype Browser = Browser(cookies: seq<Cookie>, sessions: map<string, Session>)

  ghost predicate WellFormed(b: Browser) {
    |b.cookies| == SLOTS && "" !in b.sessions
  }

  /** loadConsoleSessionCredential succeeds and validConsoleSessionAt holds. */
  predicate Valid(b: Browser, slot: int, now: int) {
    && 0 <= slot < |b.cookies|
    && b.cookies[slot].Cookie?
    && b.cookies[slot].id in b.sessions
    && var row := b.sessions[b.cookies[slot].id];
       && row.active && row.secret == b.cookies[slot].secret
       && b.cookies[slot].id != ""
       && row.idleExpiresAt > now && row.absoluteExpiresAt > now && row.bound
  }

  function AgentAt(b: Browser, slot: int, now: int): int
    requires Valid(b, slot, now)
  {
    b.sessions[b.cookies[slot].id].agent
  }

  /** Slot `slot` holds a valid session of `agent`. */
  predicate Holds(b: Browser, slot: int, agent: int, now: int) {
    Valid(b, slot, now) && AgentAt(b, slot, now) == agent
  }

  predicate SignedIn(b: Browser, agent: int, now: int) {
    exists slot | 0 <= slot < SLOTS :: Holds(b, slot, agent, now)
  }

  /** Why a slot shows no valid session. */
  lemma InvalidExactly(b: Browser, slot: int, now: int)
    requires WellFormed(b) && 0 <= slot < 5
    ensures !Valid(b, slot, now) <==>
        || b.cookies[slot] == NoCookie || b.cookies[slot].id !in b.sessions
        || var row := b.sessions[b.cookies[slot].id];
           !row.active || !row.bound || row.secret != b.cookies[slot].secret || row.idleExpiresAt <= now
           || row.absoluteExpiresAt <= now
  {
  }

  /** `replaced` is the session to revoke, or the empty string. */
  datatype Choice = Place(slot: int, replaced: string) | NoReplacement | AccountLimit

  // ----------------------------------------------------------------- what a choice means

  ghost predicate IsDuplicate(b: Browser, slot: int, now: int) {
    Valid(b, slot, now) && exists j | 0 <= j < slot :: Holds(b, j, AgentAt(b, slot, now), now)
  }

  /** The session to drop with a duplicate slot: its own, or none if the earlier slot shows the very same session. */
  ghost predicate DuplicateReplaced(b: Browser, slot: int, replaced: string, now: int)
    requires Valid(b, slot, now)
  {
    exists j | 0 <= j < slot :: && Holds(b, j, AgentAt(b, slot, now), now)
                                && replaced == if b.cookies[j].id != b.cookies[slot].id then b.cookies[slot].id else ""
  }

  /** The active slot if it shows the agent, and otherwise the first that does. */
  ghost predicate TargetSlot(b: Browser, slots: nat, now: int, active: int, target: int, slot: int) {
    && slot < slots && Holds(b, slot, target, now)
    && if active < slots && Holds(b, active, target, now) then slot == active
       else forall j | 0 <= j < slot :: !Holds(b, j, target, now)
  }

  /** The last slot that shows the agent. */
  ghost predicate LastSlot(b: Browser, slots: nat, now: int, agent: int, slot: int) {
    slot < slots && Holds(b, slot, agent, now) && forall j | slot < j < slots :: !Holds(b, j, agent, now)
  }

  /** The first slot that shows an agent of an earlier one. */
  ghost predicate FirstDuplicate(b: Browser, slots: nat, now: int, slot: int) {
    slot < slots && IsDuplicate(b, slot, now) && forall j | 0 <= j < slot :: !IsDuplicate(b, j, now)
  }

  /**
   The priorities: a slot of the target, else the named replacement, else the first slot without a
   valid session, else the first duplicate of another slot's agent.
   */
  ghost predicate ChoiceOk(b: Browser, active: int, target: int, replacement: int, now: int, choice: Choice) {
    if SignedIn(b, target, now) then
      choice.Place? && TargetSlot(b, SLOTS, now, active, target, choice.slot)
      && choice.replaced == b.cookies[choice.slot].id
    else if replacement > 0 then
      if SignedIn(b, replacement, now) then choice.Place? && LastSlot(b, SLOTS, now, replacement, choice.slot)
          && choice.replaced == b.cookies[choice.slot].id
      else choice == NoReplacement
    else if exists slot | 0 <= slot < SLOTS :: !Valid(b, slot, now) then
      choice.Place? && choice.replaced == "" && 0 <= choice.slot < SLOTS && !Valid(b, choice.slot, now)
      && forall j | 0 <= j < choice.slot :: Valid(b, j, now)
    else if exists slot | 0 <= slot < SLOTS :: IsDuplicate(b, slot, now) then
      choice.Place? && FirstDuplicate(b, SLOTS, now, choice.slot)
          && DuplicateReplaced(b, choice.slot, choice.replaced, now)
    else choice == AccountLimit
  }

  /** The variables of the scan over the slots; -1 stands for none. */
  datatype Scan = Scan(
    free: int,
    target: int,
    replacement: int,
    duplicate: int,
    session: string,
    seen: map<int, string>)

  ghost predicate FreeOk(b: Browser, slots: nat, now: int, free: int) {
    if free < 0 then forall j | 0 <= j < slots :: Valid(b, j, now)
    else free < slots && !Valid(b, free, now) && forall j | 0 <= j < free :: Valid(b, j, now)
  }

  ghost predicate TargetOk(b: Browser, slots: nat, now: int, active: int, target: int, slot: int) {
    if slot < 0 then forall j | 0 <= j < slots :: !Holds(b, j, target, now)
    else TargetSlot(b, slots, now, active, target, slot)
  }

  ghost predicate ReplacementOk(b: Browser, slots: nat, now: int, replacement: int, slot: int) {
    if slot < 0 then replacement > 0 ==> forall j | 0 <= j < slots :: !Holds(b, j, replacement, now)
    else replacement > 0 && LastSlot(b, slots, now, replacement, slot)
  }

  /** `seen` maps every agent of the slots passed so far to one of its sessions. */
  ghost predicate SeenOk(b: Browser, slots: nat, now: int, seen: map<int, string>) {
    && (forall a <- seen :: exists j | 0 <= j < slots :: Holds(b, j, a, now) && b.cookies[j].id == seen[a])
    && (forall j | 0 <= j < slots && Valid(b, j, now) :: AgentAt(b, j, now) in seen)
  }

  /** `slot` is the first duplicate among the slots passed so far, or -1. */
  ghost predicate DuplicateOk(b: Browser, slots: nat, now: int, slot: int, session: string) {
    if slot < 0 then session == "" && forall j | 0 <= j < slots :: !IsDuplicate(b, j, now)
    else FirstDuplicate(b, slots, now, slot) && DuplicateReplaced(b, slot, session, now)
  }

  ghost predicate ScanOk(b: Browser, slots: nat, active: int, target: int, replacement: int, now: int, s: Scan) {
    && FreeOk(b, slots, now, s.free)
    && TargetOk(b, slots, now, active, target, s.target)
    && ReplacementOk(b, slots, now, replacement, s.replacement)
    && SeenOk(b, slots, now, s.seen) && DuplicateOk(b, slots, now, s.duplicate, s.session)
  }

  /** The part of the loop that looks for an agent seen before. */
  method NoteAgent(b: Browser, slot: nat, now: int, s: Scan) returns (r: Scan)
    requires slot < SLOTS && Valid(b, slot, now) && SeenOk(b, slot, now, s.seen)
    requires DuplicateOk(b, slot, now, s.duplicate, s.session)
    ensures SeenOk(b, slot + 1, now, r.seen) && DuplicateOk(b, slot + 1, now, r.duplicate, r.session)
    ensures r == s.(seen := r.seen, duplicate := r.duplicate, session := r.session)
  {
    r := s;
    var agent, id := AgentAt(b, slot, now), b.cookies[slot].id;
    assert Holds(b, slot, agent, now);
    if agent in s.seen && r.duplicate < 0 {
      r := r.(duplicate := slot, session := if s.seen[agent] != id then id else "");
    }
    r := r.(seen := s.seen[agent := id]);
  }

  /** One round of the loop. */
  method VisitSlot(b: Browser, slot: nat, active: int, target: int, replacement: int, now: int, s: Scan)
    returns (r: Scan)
    requires slot < SLOTS && ScanOk(b, slot, active, target, replacement, now, s)
    ensures ScanOk(b, slot + 1, active, target, replacement, now, r)
  {
    if !Valid(b, slot, now) {
      InvalidKeeps(b, slot, active, target, replacement, now, s);
      return s.(free := if s.free < 0 then slot else s.free);
    }
    r := NoteAgent(b, slot, now, s);
    var agent := AgentAt(b, slot, now);
    ValidKeepsFree(b, slot, now, s.free);
    ValidKeepsTarget(b, slot, now, active, target, s.target);
    ValidKeepsReplacement(b, slot, now, replacement, s.replacement);
    if agent == target && (r.target < 0 || slot == active) { r := r.(target := slot); }
    if replacement > 0 && agent == replacement { r := r.(replacement := slot); }
  }

  lemma InvalidKeeps(b: Browser, slot: nat, active: int, target: int, replacement: int, now: int, s: Scan)
    requires ScanOk(b, slot, active, target, replacement, now, s) && !Valid(b, slot, now)
    ensures ScanOk(b, slot + 1, active, target, replacement, now, s.(free := if s.free < 0 then slot else s.free))
  {
  }

  lemma ValidKeepsFree(b: Browser, slot: nat, now: int, free: int)
    requires Valid(b, slot, now) && FreeOk(b, slot, now, free)
    ensures FreeOk(b, slot + 1, now, free)
  {
  }

  lemma ValidKeepsTarget(b: Browser, slot: nat, now: int, active: int, target: int, found: int)
    requires Valid(b, slot, now) && TargetOk(b, slot, now, active, target, found)
    ensures var next := if AgentAt(b, slot, now) == target && (found < 0 || slot == active) then slot else found;
            TargetOk(b, slot + 1, now, active, target, next)
  {
  }

  lemma ValidKeepsReplacement(b: Browser, slot: nat, now: int, replacement: int, found: int)
    requires Valid(b, slot, now) && ReplacementOk(b, slot, now, replacement, found)
    ensures var next := if replacement > 0 && AgentAt(b, slot, now) == replacement then slot else found;
            ReplacementOk(b, slot + 1, now, replacement, next)
  {
  }

  /** chooseConsoleSessionSlot */
  method ChooseSlot(b: Browser, active: int, target: int, replacement: int, now: int) returns (choice: Choice)
    requires WellFormed(b)
    ensures ChoiceOk(b, active, target, replacement, now, choice)
  {
    var s := Scan(-1, -1, -1, -1, "", map[]);
    for slot := 0 to SLOTS
      invariant ScanOk(b, slot, active, target, replacement, now, s)
    {
      s := VisitSlot(b, slot, active, target, replacement, now, s);
    }
    if s.target >= 0 { return Place(s.target, b.cookies[s.target].id); }
    if replacement > 0 {
      if s.replacement >= 0 { return Place(s.replacement, b.cookies[s.replacement].id); }
      return NoReplacement;
    }
    if s.free >= 0 { return Place(s.free, ""); }
    if s.duplicate >= 0 { return Place(s.duplicate, s.session); }
    return AccountLimit;
  }

  // ----------------------------------------------------------------- when it refuses

  /** The account limit means no replacement is named and five different accounts, none the target, fill the slots. */
  lemma LimitExactly(b: Browser, active: int, target: int, replacement: int, now: int, choice: Choice)
    requires WellFormed(b) && ChoiceOk(b, active, target, replacement, now, choice)
    ensures choice == AccountLimit <==>
              && replacement <= 0
              && (forall slot | 0 <= slot < SLOTS :: Valid(b, slot, now) && !Holds(b, slot, target, now))
              && (forall i, j | 0 <= i < j < SLOTS :: !(Valid(b, j, now) && Holds(b, i, AgentAt(b, j, now), now)))
    ensures choice == NoReplacement <==> replacement > 0 && !SignedIn(b, target, now) && !SignedIn(b, replacement, now)
  {
    if choice == AccountLimit {
      forall slot | 0 <= slot < SLOTS ensures Valid(b, slot, now) && !Holds(b, slot, target, now) {}
      forall i, j | 0 <= i < j < SLOTS ensures !(Valid(b, j, now) && Holds(b, i, AgentAt(b, j, now), now)) {
        assert !IsDuplicate(b, j, now);
      }
    }
  }

  // ----------------------------------------------------------------- placing the session

  /** The new session goes into the slot and the replaced one is revoked. */
  function SignIn(b: Browser, choice: Choice, id: string, row: Session): Browser
    requires choice.Place? && 0 <= choice.slot < |b.cookies|
  {
    var kept := if choice.replaced in b.sessions
        then b.sessions[choice.replaced := b.sessions[choice.replaced].(active := false)] else b.sessions;
    Browser(b.cookies[choice.slot := Cookie(id, row.secret)], kept[id := row])
  }

  /** Valid sessions of a browser belong to different agents. */
  ghost predicate DistinctAgents(b: Browser, now: int) {
    forall i, j | 0 <= i < j < SLOTS :: !(Valid(b, j, now) && Holds(b, i, AgentAt(b, j, now), now))
  }

  /** Every other slot shows what it did, unless it shows the revoked session. */
  lemma OtherSlots(b: Browser, choice: Choice, id: string, row: Session, now: int, j: int)
    requires WellFormed(b) && choice.Place? && 0 <= choice.slot < SLOTS && 0 <= j < SLOTS && j != choice.slot
    requires forall k | 0 <= k < SLOTS && b.cookies[k].Cookie? :: b.cookies[k].id != id
    ensures Valid(SignIn(b, choice, id, row), j, now) <==> Valid(b, j, now) && b.cookies[j].id != choice.replaced
    ensures Valid(SignIn(b, choice, id, row), j, now) ==>
        AgentAt(SignIn(b, choice, id, row), j, now) == AgentAt(b, j, now)
  {
  }

  /** Placing a session of the target keeps valid sessions on distinct agents. */
  lemma SignInKeepsDistinct(b: Browser, active: int, target: int, replacement: int, now: int, choice: Choice,
                            id: string, row: Session)
    requires WellFormed(b) && ChoiceOk(b, active, target, replacement, now, choice) && choice.Place?
    requires row.agent == target
    requires forall k | 0 <= k < SLOTS && b.cookies[k].Cookie? :: b.cookies[k].id != id
    requires DistinctAgents(b, now)
    ensures DistinctAgents(SignIn(b, choice, id, row), now)
  {
    var c := SignIn(b, choice, id, row);
    forall i, j | 0 <= i < j < SLOTS ensures !(Valid(c, j, now) && Holds(c, i, AgentAt(c, j, now), now)) {
      assert Valid(b, j, now) ==> !Holds(b, i, AgentAt(b, j, now), now);
      if i == choice.slot {
        NoOtherTarget(b, active, target, replacement, now, choice, id, row, j);
      } else if j == choice.slot {
        NoOtherTarget(b, active, target, replacement, now, choice, id, row, i);
      } else {
        OtherSlots(b, choice, id, row, now, i);
        OtherSlots(b, choice, id, row, now, j);
      }
    }
  }

  /** After the placement no other slot holds the target. */
  lemma NoOtherTarget(b: Browser, active: int, target: int, replacement: int, now: int, choice: Choice, id: string,
                      row: Session, j: int)
    requires WellFormed(b) && ChoiceOk(b, active, target, replacement, now, choice) && choice.Place?
    requires forall k | 0 <= k < SLOTS && b.cookies[k].Cookie? :: b.cookies[k].id != id
    requires DistinctAgents(b, now) && 0 <= j < SLOTS && j != choice.slot
    ensures !Holds(SignIn(b, choice, id, row), j, target, now)
  {
    OtherSlots(b, choice, id, row, now, j);
    assert Holds(b, j, target, now) ==> SignedIn(b, target, now);
  }

  /**
   The only agent whose session can end is the target, replaced by the new one, or the replacement
   that was asked for.
   */
  lemma SignInSignsOutNobodyElse(b: Browser, active: int, target: int, replacement: int, now: int, choice: Choice,
                                 id: string, row: Session, agent: int)
    requires WellFormed(b) && ChoiceOk(b, active, target, replacement, now, choice) && choice.Place?
    requires forall k | 0 <= k < SLOTS && b.cookies[k].Cookie? :: b.cookies[k].id != id
    requires SignedIn(b, agent, now) && agent != target
    requires (replacement > 0 && !SignedIn(b, target, now) ==> agent != replacement)
    ensures SignedIn(SignIn(b, choice, id, row), agent, now)
  {
    var c := SignIn(b, choice, id, row);
    var s :| 0 <= s < SLOTS && Holds(b, s, agent, now);
    var j := s;
    if (s == choice.slot || b.cookies[s].id == choice.replaced) && !SignedIn(b, target, now) && replacement <= 0 {
      j :| 0 <= j < choice.slot && Holds(b, j, agent, now) && b.cookies[j].id != choice.replaced;
    }
    OtherSlots(b, choice, id, row, now, j);
    assert Holds(c, j, agent, now);
  }

  /** The target is signed in afterwards, in the chosen slot, if its new session is valid. */
  lemma SignInSignsIn(b: Browser, active: int, target: int, replacement: int, now: int, choice: Choice, id: string,
                      row: Session)
    requires WellFormed(b) && ChoiceOk(b, active, target, replacement, now, choice) && choice.Place?
    requires row.agent == target
    requires id != "" && row.active && row.bound && row.idleExpiresAt > now && row.absoluteExpiresAt > now
    ensures WellFormed(SignIn(b, choice, id, row)) && Holds(SignIn(b, choice, id, row), choice.slot, target, now)
  {
  }

  /** Nothing but the chosen slot's cookie, the new row and the replaced row's activity changes. */
  lemma SignInLeaves(b: Browser, choice: Choice, id: string, row: Session)
    requires choice.Place? && 0 <= choice.slot < |b.cookies| && id != choice.replaced
    ensures var c := SignIn(b, choice, id, row);
            && c.cookies == b.cookies[choice.slot := Cookie(id, row.secret)]
            && c.sessions.Keys == b.sessions.Keys + {id} && c.sessions[id] == row
            && forall other <- b.sessions :: other != id ==>
                c.sessions[other] == if other == choice.replaced then b.sessions[other].(active := false)
                                     else b.sessions[other]
  {
  }

  // ----------------------------------------------------------------- the email flow of an account switch

  /** Reuses the slot of the source account when five other accounts fill the browser. */
  method ChooseSlotForSwitch(b: Browser, active: int, target: int, source: int, now: int) returns (choice: Choice)
    requires WellFormed(b) && source > 0
    ensures choice != AccountLimit
    ensures choice == NoReplacement ==> !SignedIn(b, source, now)
    ensures choice.Place? ==>
        || ChoiceOk(b, active, target, 0, now, choice)
        || (ChoiceOk(b, active, target, 0, now, AccountLimit) && LastSlot(b, SLOTS, now, source, choice.slot)
            && choice.replaced == b.cookies[choice.slot].id)
  {
    choice := ChooseSlot(b, active, target, 0, now);
    if choice == AccountLimit {
      choice := ChooseSlot(b, active, target, source, now);
      LimitExactly(b, active, target, source, now, choice);
    } else {
      LimitExactly(b, active, target, 0, now, choice);
    }
  }
}
