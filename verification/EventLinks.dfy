/**
 The links of a team's events: EventsService and the link set that EventsRedisRepository keeps beside the stored
 events, so that a link can be checked without reading them.
 */
module EventLinks {

  import opened Wrappers

  /** The link of every stored event of the team, and the team's link set. */
  datatype Links = Links(events: map<int, string>, linkSet: set<string>)

  datatype Outcome = Done | EventNotFound | AlreadyUsedInEventLink

  const NEW_EVENT_LINK := "new-event-type"

  function LinksOf(events: map<int, string>): set<string> {
    set id | id in events :: events[id]
  }

  /** The set holds exactly the links in use, and no two events share one. */
  ghost predicate Agree(links: Links) {
    && links.linkSet == LinksOf(links.events)
    && Distinct(links.events)
  }

  ghost predicate Distinct(events: map<int, string>) {
    forall i, j | i in events && j in events && events[i] == events[j] :: i == j
  }

  // ---------------------------------------------------------------- specification of the operations

  /** The link of a new event: the suffix is only used when the plain link is taken. */
  function NewLink(links: Links, suffix: string): string {
    if NEW_EVENT_LINK in links.linkSet then NEW_EVENT_LINK + "-" + suffix else NEW_EVENT_LINK
  }

  function WithEvent(links: Links, id: int, link: string): Links {
    Links(links.events[id := link], links.linkSet + {link})
  }

  /** One link of the set replaced by another, and the event's link written. */
  function Relinked(links: Links, id: int, link: string): Links
    requires id in links.events
  {
    Links(links.events[id := link], links.linkSet - {links.events[id]} + {link})
  }

  /** The link that a patch asks for, if it is one the service looks at. */
  predicate AsksForLink(current: string, link: Option<string>) {
    link.Some? && link.value != "" && link.value != current
  }

  function PatchOutcome(links: Links, id: int, link: Option<string>): Outcome {
    if id !in links.events then EventNotFound
    else if AsksForLink(links.events[id], link) && link.value in links.linkSet then AlreadyUsedInEventLink
    else Done
  }

  function Patched(links: Links, id: int, link: Option<string>): Links {
    if !PatchOutcome(links, id, link).Done? || link.None? then links
    else if AsksForLink(links.events[id], link) then Relinked(links, id, link.value)
    else links.(events := links.events[id := link.value])
  }

  function UpdateOutcome(links: Links, id: int, link: string): Outcome {
    if id !in links.events then EventNotFound
    else if link in links.linkSet && links.events[id] != link then AlreadyUsedInEventLink
    else Done
  }

  function Updated(links: Links, id: int, link: string): Links {
    if UpdateOutcome(links, id, link).Done? then Relinked(links, id, link) else links
  }

  function Removed(links: Links, id: int): Links {
    if id in links.events then Links(links.events - {id}, links.linkSet - {links.events[id]}) else links
  }

  function Cloned(links: Links, id: int, newId: int, suffix: string): Links {
    if id in links.events then WithEvent(links, newId, links.events[id] + "-" + suffix) else links
  }

  // ---------------------------------------------------------------- the service

  class EventsService {
    var events: map<int, string>
    var linkSet: set<string>

    ghost function State(): Links
      reads this
    {
      Links(events, linkSet)
    }

    method GetEventLinkSetStatus(link: string) returns (used: bool)
      ensures used <==> link in linkSet
    {
      used := link in linkSet;
    }

    method SetEventLinkSetStatus(link: string)
      modifies this`linkSet
      ensures linkSet == old(linkSet) + {link}
    {
      linkSet := linkSet + {link};
    }

    method DeleteEventLinkSetStatus(link: string)
      modifies this`linkSet
      ensures linkSet == old(linkSet) - {link}
    {
      linkSet := linkSet - {link};
    }

    method Create(id: int, suffix: string)
      requires id !in events
      modifies this
      ensures State() == WithEvent(old(State()), id, NewLink(old(State()), suffix))
    {
      var link := NEW_EVENT_LINK;
      var isAlreadyUsedIn := GetEventLinkSetStatus(link);
      if isAlreadyUsedIn {
        link := NEW_EVENT_LINK + "-" + suffix;
      }
      events := events[id := link];
      SetEventLinkSetStatus(link);
    }

    method Patch(id: int, link: Option<string>) returns (outcome: Outcome)
      modifies this
      ensures outcome == PatchOutcome(old(State()), id, link)
      ensures State() == Patched(old(State()), id, link)
    {
      if id !in events {
        return EventNotFound;
      }
      if link.Some? && link.value != "" && link.value != events[id] {
        var isAlreadyUsedIn := GetEventLinkSetStatus(link.value);
        if isAlreadyUsedIn {
          return AlreadyUsedInEventLink;
        }
        DeleteEventLinkSetStatus(events[id]);
        SetEventLinkSetStatus(link.value);
      }
      if link.Some? {
        events := events[id := link.value];
      }
      outcome := Done;
    }

    method Update(id: int, link: string) returns (outcome: Outcome)
      modifies this
      ensures outcome == UpdateOutcome(old(State()), id, link)
      ensures State() == Updated(old(State()), id, link)
    {
      if id !in events {
        return EventNotFound;
      }
      var validatedLink := events[id];
      var isLinkAlreadyUsedIn := GetEventLinkSetStatus(link);
      if isLinkAlreadyUsedIn && validatedLink != link {
        return AlreadyUsedInEventLink;
      }
      events := events[id := link];
      DeleteEventLinkSetStatus(validatedLink);
      SetEventLinkSetStatus(link);
      outcome := Done;
    }

    method Remove(id: int) returns (outcome: Outcome)
      modifies this
      ensures outcome == if id in old(events) then Done else EventNotFound
      ensures State() == Removed(old(State()), id)
    {
      if id !in events {
        return EventNotFound;
      }
      var link := events[id];
      events := events - {id};
      DeleteEventLinkSetStatus(link);
      outcome := Done;
    }

    method Clone(id: int, newId: int, suffix: string) returns (outcome: Outcome)
      requires newId !in events
      modifies this
      ensures outcome == if id in old(events) then Done else EventNotFound
      ensures State() == Cloned(old(State()), id, newId, suffix)
    {
      if id !in events {
        return EventNotFound;
      }
      var link := events[id] + "-" + suffix;
      events := events[newId := link];
      SetEventLinkSetStatus(link);
      outcome := Done;
    }
  }

  // ---------------------------------------------------------------- what each operation keeps

  lemma ValuesAfter(events: map<int, string>, id: int, link: string)
    requires Distinct(events)
    ensures id !in events ==> LinksOf(events[id := link]) == LinksOf(events) + {link}
    ensures id in events ==> LinksOf(events[id := link]) == LinksOf(events) - {events[id]} + {link}
  {
    var after := events[id := link];
    assert after[id] == link;
    forall other ensures other in LinksOf(after)
      <==> other == link || (other in LinksOf(events) && (id in events ==> other != events[id]))
    {
      if other in LinksOf(events) && (id in events ==> other != events[id]) {
        var i :| i in events && events[i] == other;
        assert i != id && after[i] == other;
      }
    }
  }

  /** An event added under a generated link keeps the agreement exactly when the set does not hold that link. */
  lemma AddKeepsIff(links: Links, id: int, link: string)
    requires Agree(links) && id !in links.events
    ensures Agree(WithEvent(links, id, link)) <==> link !in links.linkSet
  {
    ValuesAfter(links.events, id, link);
    var after := WithEvent(links, id, link).events;
    if link in links.linkSet {
      var other :| other in links.events && links.events[other] == link;
      assert after[other] == after[id];
    }
  }

  /** A new event breaks the agreement only by a suffix generated before. */
  lemma CreateKeepsIff(links: Links, id: int, suffix: string)
    requires Agree(links) && id !in links.events
    ensures Agree(WithEvent(links, id, NewLink(links, suffix))) <==>
            !(NEW_EVENT_LINK in links.linkSet && NEW_EVENT_LINK + "-" + suffix in links.linkSet)
  {
    AddKeepsIff(links, id, NewLink(links, suffix));
  }

  lemma CloneKeepsIff(links: Links, id: int, newId: int, suffix: string)
    requires Agree(links) && newId !in links.events
    ensures Agree(Cloned(links, id, newId, suffix)) <==>
            !(id in links.events && links.events[id] + "-" + suffix in links.linkSet)
  {
    if id in links.events {
      AddKeepsIff(links, newId, links.events[id] + "-" + suffix);
    }
  }

  lemma RelinkKeeps(links: Links, id: int, link: string)
    requires Agree(links) && id in links.events && (link == links.events[id] || link !in links.linkSet)
    ensures Agree(Relinked(links, id, link))
  {
    ValuesAfter(links.events, id, link);
    forall i | i in links.events ensures links.events[i] in LinksOf(links.events) {
    }
  }

  /**
   A patch keeps the agreement exactly when it does not blank a link: an empty link is written without a look at the
   set.
   */
  lemma PatchKeepsIff(links: Links, id: int, link: Option<string>)
    requires Agree(links)
    ensures Agree(Patched(links, id, link)) <==> !(id in links.events && link == Some("") && links.events[id] != "")
  {
    if PatchOutcome(links, id, link).Done? && link.Some? {
      if AsksForLink(links.events[id], link) {
        RelinkKeeps(links, id, link.value);
      } else {
        ValuesAfter(links.events, id, link.value);
        assert links.events[id] in LinksOf(links.events);
        if link.value == links.events[id] {
          assert links.events[id := link.value] == links.events;
        }
      }
    }
  }

  lemma UpdateKeeps(links: Links, id: int, link: string)
    requires Agree(links)
    ensures Agree(Updated(links, id, link))
  {
    if UpdateOutcome(links, id, link).Done? {
      RelinkKeeps(links, id, link);
    }
  }

  lemma RemoveKeeps(links: Links, id: int)
    requires Agree(links)
    ensures Agree(Removed(links, id))
  {
    if id in links.events {
      var after := Removed(links, id).events;
      forall link ensures link in LinksOf(after) <==> link in LinksOf(links.events) && link != links.events[id] {
        if link in LinksOf(links.events) && link != links.events[id] {
          var i :| i in links.events && links.events[i] == link;
          assert after[i] == link;
        }
      }
    }
  }

  // ---------------------------------------------------------------- what the agreement is for

  ghost predicate TakenByAnother(links: Links, id: int, link: string) {
    exists other :: other in links.events && other != id && links.events[other] == link
  }

  lemma InSetIffTaken(links: Links, id: int, link: string)
    requires Agree(links) && id in links.events && links.events[id] != link
    ensures link in links.linkSet <==> TakenByAnother(links, id, link)
  {
    if TakenByAnother(links, id, link) {
      var other :| other in links.events && other != id && links.events[other] == link;
      assert link in LinksOf(links.events);
    }
  }

  /** The set answers for the stored events: a link is refused exactly when another event of the team has it. */
  lemma RefusedIffTaken(links: Links, id: int, link: string)
    requires Agree(links) && id in links.events && link != ""
    ensures PatchOutcome(links, id, Some(link)).AlreadyUsedInEventLink? <==> TakenByAnother(links, id, link)
    ensures UpdateOutcome(links, id, link).AlreadyUsedInEventLink? <==> TakenByAnother(links, id, link)
  {
    if links.events[id] != link {
      InSetIffTaken(links, id, link);
    }
  }

  /** Patching the old link back is accepted and restores the events and the set. */
  lemma PatchBack(links: Links, id: int, link: string)
    requires Agree(links) && id in links.events && links.events[id] != "" && link != ""
    requires PatchOutcome(links, id, Some(link)).Done?
    ensures var patched := Patched(links, id, Some(link));
            && PatchOutcome(patched, id, Some(links.events[id])).Done?
            && Patched(patched, id, Some(links.events[id])) == links
  {
    var own := links.events[id];
    assert own in LinksOf(links.events);
    if link == own {
      assert links.events[id := link] == links.events;
    } else {
      assert links.events[id := link][id := own] == links.events;
      assert links.linkSet - {own} + {link} - {link} + {own} == links.linkSet;
    }
  }

  /** The failing case: a blanked link stays in the set, so that no other event can take it although none has it. */
  lemma BlankedLinkIsLost(links: Links, id: int, other: int)
    requires Agree(links) && id in links.events && links.events[id] != "" && other in links.events && other != id
    ensures var blanked := Patched(links, id, Some(""));
            && links.events[id] !in LinksOf(blanked.events)
            && PatchOutcome(blanked, other, Some(links.events[id])).AlreadyUsedInEventLink?
  {
    assert links.events[id] in LinksOf(links.events);
    ValuesAfter(links.events, id, "");
  }

  // ---------------------------------------------------------------- runs

  datatype Step =
    | CreateStep(id: int, suffix: string)
    | PatchStep(id: int, patch: Option<string>)
    | UpdateStep(id: int, link: string)
    | RemoveStep(id: int)
    | CloneStep(id: int, newId: int, suffix: string)

  function After(links: Links, step: Step): Links {
    match step
    case CreateStep(id, suffix) => WithEvent(links, id, NewLink(links, suffix))
    case PatchStep(id, patch) => Patched(links, id, patch)
    case UpdateStep(id, link) => Updated(links, id, link)
    case RemoveStep(id) => Removed(links, id)
    case CloneStep(id, newId, suffix) => Cloned(links, id, newId, suffix)
  }

  /** New ids are unused, and so are generated links. */
  predicate FreshStep(links: Links, step: Step) {
    match step
    case CreateStep(id, suffix) => id !in links.events && NewLink(links, suffix) !in links.linkSet
    case CloneStep(id, newId, suffix) =>
      newId !in links.events && (id in links.events ==> links.events[id] + "-" + suffix !in links.linkSet)
    case _ => true
  }

  predicate Blanks(links: Links, step: Step) {
    step.PatchStep? && step.id in links.events && step.patch == Some("") && links.events[step.id] != ""
  }

  ghost predicate Run(states: seq<Links>, steps: seq<Step>) {
    && |states| == |steps| + 1
    && forall i | 0 <= i < |steps| :: FreshStep(states[i], steps[i]) && states[i + 1] == After(states[i], steps[i])
  }

  /** A step with fresh ids and links keeps the agreement exactly when it does not blank a link. */
  lemma StepKeepsIff(links: Links, step: Step)
    requires Agree(links) && FreshStep(links, step)
    ensures Agree(After(links, step)) <==> !Blanks(links, step)
  {
    match step
    case CreateStep(id, suffix) => CreateKeepsIff(links, id, suffix);
    case PatchStep(id, patch) => PatchKeepsIff(links, id, patch);
    case UpdateStep(id, link) => UpdateKeeps(links, id, link);
    case RemoveStep(id) => RemoveKeeps(links, id);
    case CloneStep(id, newId, suffix) => CloneKeepsIff(links, id, newId, suffix);
  }

  lemma {:induction false} RunsAgree(states: seq<Links>, steps: seq<Step>, n: nat)
    requires Run(states, steps) && Agree(states[0]) && n < |states|
    requires forall k | 0 <= k < n :: !Blanks(states[k], steps[k])
    ensures Agree(states[n])
  {
    if n > 0 {
      RunsAgree(states, steps, n - 1);
      StepKeepsIff(states[n - 1], steps[n - 1]);
    }
  }

  /** All along a run the set is the set of the events' links, all distinct, exactly when no step blanks a link. */
  lemma RunsAgreeIff(states: seq<Links>, steps: seq<Step>)
    requires Run(states, steps) && Agree(states[0])
    ensures (forall n | 0 <= n < |states| :: Agree(states[n])) <==>
            (forall k | 0 <= k < |steps| :: !Blanks(states[k], steps[k]))
  {
    hide Agree, Blanks, FreshStep, After;
    if forall k | 0 <= k < |steps| :: !Blanks(states[k], steps[k]) {
      forall n | 0 <= n < |states| ensures Agree(states[n]) {
        RunsAgree(states, steps, n);
      }
    }
    if forall n | 0 <= n < |states| :: Agree(states[n]) {
      forall k | 0 <= k < |steps| ensures !Blanks(states[k], steps[k]) {
        assert Agree(states[k]) && Agree(states[k + 1]);
        StepKeepsIff(states[k], steps[k]);
      }
    }
  }

  /** What also runs with blanked links keep: every link but the empty one is in the set and belongs to one event. */
  ghost predicate Covered(links: Links) {
    && (forall i | i in links.events && links.events[i] != "" :: links.events[i] in links.linkSet)
    && (forall i, j | i in links.events && j in links.events && links.events[i] == links.events[j] != "" :: i == j)
  }

  lemma RelinkCovers(links: Links, id: int, link: string)
    requires Covered(links) && id in links.events && (link == links.events[id] || link !in links.linkSet)
    ensures Covered(Relinked(links, id, link))
  {
  }

  lemma StepCovers(links: Links, step: Step)
    requires Covered(links) && FreshStep(links, step)
    ensures Covered(After(links, step))
  {
    match step
    case PatchStep(id, patch) =>
      if id in links.events && AsksForLink(links.events[id], patch) && patch.value !in links.linkSet {
        RelinkCovers(links, id, patch.value);
      }
    case UpdateStep(id, link) =>
      if UpdateOutcome(links, id, link).Done? {
        RelinkCovers(links, id, link);
      }
    case _ =>
  }

  /** In every run whatsoever with fresh ids and links, no two events of the team share a link that is not empty. */
  lemma {:induction false} RunsCover(states: seq<Links>, steps: seq<Step>, i: nat)
    requires Run(states, steps) && Covered(states[0]) && i < |states|
    ensures Covered(states[i])
  {
    if i > 0 {
      RunsCover(states, steps, i - 1);
      StepCovers(states[i - 1], steps[i - 1]);
    }
  }

  // ---------------------------------------------------------------- what each operation does

  /** The events are as before, except that this one has the link. */
  ghost predicate Gives(before: Links, after: Links, id: int, link: string) {
    && id in after.events && after.events[id] == link && link in after.linkSet
    && after.events.Keys == before.events.Keys + {id}
    && forall other | other in before.events && other != id :: after.events[other] == before.events[other]
  }

  /** An accepted update gives the event its link and frees the one it had. */
  lemma UpdateGives(links: Links, id: int, link: string)
    requires Agree(links) && UpdateOutcome(links, id, link).Done?
    ensures Gives(links, Updated(links, id, link), id, link)
    ensures link != links.events[id] ==> links.events[id] !in Updated(links, id, link).linkSet
  {
  }

  /** So does an accepted patch that asks for a link; one that asks for none changes nothing. */
  lemma PatchGives(links: Links, id: int, link: Option<string>)
    requires Agree(links) && PatchOutcome(links, id, link).Done?
    ensures link.Some? && link.value != "" ==> Gives(links, Patched(links, id, link), id, link.value)
    ensures link.Some? && link.value != "" && link.value != links.events[id] ==>
              links.events[id] !in Patched(links, id, link).linkSet
    ensures link == None ==> Patched(links, id, link) == links
  {
    assert links.events[id] in LinksOf(links.events);
  }

  /** A refused patch or update changes nothing. */
  lemma RefusalKeeps(links: Links, id: int, patch: Option<string>, link: string)
    ensures !PatchOutcome(links, id, patch).Done? ==> Patched(links, id, patch) == links
    ensures !UpdateOutcome(links, id, link).Done? ==> Updated(links, id, link) == links
  {
  }

  /** A removed event is gone, its link is free for another, and the other events keep theirs. */
  lemma RemoveFrees(links: Links, id: int)
    requires Agree(links) && id in links.events
    ensures var after := Removed(links, id);
            && after.events.Keys == links.events.Keys - {id}
            && (forall other | other in after.events :: after.events[other] == links.events[other])
            && links.events[id] !in after.linkSet
            && forall other | other in after.events && links.events[id] != "" ::
                 PatchOutcome(after, other, Some(links.events[id])).Done?
  {
  }

  /** The first event takes the plain link; after that the suffix is appended. */
  lemma CreateGives(links: Links, id: int, suffix: string)
    requires Agree(links) && id !in links.events
    ensures var link := if exists e | e in links.events :: links.events[e] == "new-event-type"
                        then "new-event-type" + "-" + suffix else "new-event-type";
            Gives(links, WithEvent(links, id, NewLink(links, suffix)), id, link)
  {
    assert "new-event-type" in links.linkSet <==> exists e | e in links.events :: links.events[e] == "new-event-type";
  }

  /** A clone has its source's link with the suffix. */
  lemma CloneGives(links: Links, id: int, newId: int, suffix: string)
    requires id in links.events && newId !in links.events
    ensures Gives(links, Cloned(links, id, newId, suffix), newId, links.events[id] + "-" + suffix)
  {
  }
}
