/**
 The Redis index of team invitations (ProfilesRedisRepository): a set of teams for every invited
 contact, a set of contacts for every team, and a hash of order ids for every team.
 */
module Invitations {

  datatype Team = Team(id: int, uuid: string)

  /** An e-mail address or a phone number. */
  type Contact = string

  /** The store of getInvitedNewMemberKey; its keys are the store's name, ':' and a contact. */
  const INVITED_NEW_MEMBER: string := "invited-new-member"

  function MemberKey(contact: Contact): string {
    INVITED_NEW_MEMBER + ":" + contact
  }

  /**
   The three structures.  A pair (contact, team) is a member of the contact's set of teams, a pair
   (uuid, contact) of the team's set of contacts; the hash is keyed by team uuid and field.
   */
  datatype Index = Index(
    memberTeams: set<(Contact, Team)>, teamMembers: set<(string, Contact)>, orders: map<(string, string), int>)

  const EMPTY: Index := Index({}, {}, map[])

  function Invite(index: Index, team: Team, contact: Contact, orderId: int): Index {
    Index(
      index.memberTeams + {(contact, team)},
      index.teamMembers + {(team.uuid, contact)},
      index.orders[(team.uuid, contact) := orderId])
  }

  function InviteAll(index: Index, team: Team, contacts: seq<Contact>, orderId: int): Index {
    if contacts == [] then index
    else
      var last := |contacts| - 1;
      Invite(InviteAll(index, team, contacts[..last], orderId), team, contacts[last], orderId)
  }

  /** The hash field removed is the contact's Redis key, not the contact. */
  function Withdraw(index: Index, team: Team, contact: Contact): Index {
    Index(
      index.memberTeams - {(contact, team)},
      index.teamMembers - {(team.uuid, contact)},
      index.orders - {(team.uuid, MemberKey(contact))})
  }

  predicate Pending(index: Index, team: Team, contact: Contact) {
    (team.uuid, contact) in index.teamMembers
  }

  /** The order a contact was invited with; -1 stands for a missing field. */
  function OrderOf(index: Index, team: Team, contact: Contact): int {
    if (team.uuid, contact) in index.orders then index.orders[(team.uuid, contact)] else -1
  }

  class ProfilesRedisRepository {
    var memberTeams: set<(Contact, Team)>
    var teamMembers: set<(string, Contact)>
    var orders: map<(string, string), int>

    function Contents(): Index
      reads this
    {
      Index(memberTeams, teamMembers, orders)
    }

    constructor ()
      ensures Contents() == EMPTY
    {
      memberTeams, teamMembers, orders := {}, {}, map[];
    }

    method SetTeamInvitations(team: Team, contacts: seq<Contact>, orderId: int)
      modifies this
      ensures Contents() == InviteAll(old(Contents()), team, contacts, orderId)
    {
      for i := 0 to |contacts|
        invariant Contents() == InviteAll(old(Contents()), team, contacts[..i], orderId)
      {
        assert contacts[..i + 1][..i] == contacts[..i];
        memberTeams := memberTeams + {(contacts[i], team)};
        teamMembers := teamMembers + {(team.uuid, contacts[i])};
        orders := orders[(team.uuid, contacts[i]) := orderId];
      }
      assert contacts[..|contacts|] == contacts;
    }

    method DeleteTeamInvitations(team: Team, contact: Contact)
      modifies this
      ensures Contents() == Withdraw(old(Contents()), team, contact)
    {
      memberTeams := memberTeams - {(contact, team)};
      teamMembers := teamMembers - {(team.uuid, contact)};
      orders := orders - {(team.uuid, MemberKey(contact))};
    }

    /** Asks the contact's own set whether the team is in it; an empty contact never passes the filter. */
    method FilterAlreadyInvited(team: Team, contacts: seq<Contact>) returns (invited: seq<Contact>)
      ensures invited == AlreadyInvited(Contents(), team, contacts)
    {
      invited := [];
      for i := 0 to |contacts|
        invariant invited == AlreadyInvited(Contents(), team, contacts[..i])
      {
        assert contacts[..i + 1][..i] == contacts[..i];
        var isMember := (contacts[i], team) in memberTeams;
        if isMember && contacts[i] != "" {
          invited := invited + [contacts[i]];
        }
      }
      assert contacts[..|contacts|] == contacts;
    }

    /** The teams that invited a contact, each with its order id. */
    method GetTeamInvitations(contact: Contact) returns (teams: set<(Team, int)>)
      ensures forall team, orderId :: (team, orderId) in teams <==>
                && (contact, team) in memberTeams
                && orderId == if (team.uuid, contact) in orders then orders[(team.uuid, contact)] else -1
    {
      teams := set pair | pair in memberTeams && pair.0 == contact :: (pair.1, OrderOf(Contents(), pair.1, contact));
    }

    method GetAllTeamInvitations(team: Team) returns (contacts: set<Contact>)
      ensures forall contact :: contact in contacts <==> (team.uuid, contact) in teamMembers
    {
      contacts := set pair | pair in teamMembers && pair.0 == team.uuid :: pair.1;
    }
  }

  function AlreadyInvited(index: Index, team: Team, contacts: seq<Contact>): seq<Contact> {
    if contacts == [] then []
    else
      var last := |contacts| - 1;
      AlreadyInvited(index, team, contacts[..last]) +
      if (contacts[last], team) in index.memberTeams && contacts[last] != "" then [contacts[last]] else []
  }

  // ---------------------------------------------------------------- agreement of the two sets

  /** Team uuids identify teams. */
  ghost predicate UuidsDistinct(teams: set<Team>) {
    forall a, b | a in teams && b in teams && a.uuid == b.uuid :: a == b
  }

  /** A team is in a contact's set exactly when the contact is in the team's set. */
  ghost predicate Agree(index: Index, teams: set<Team>) {
    && (forall contact, team | team in teams ::
          (contact, team) in index.memberTeams <==> (team.uuid, contact) in index.teamMembers)
    && (forall pair | pair in index.memberTeams :: pair.1 in teams)
  }

  /** No contact reads like the Redis key of another. */
  ghost predicate Plain(contact: Contact) {
    forall other: Contact :: contact != MemberKey(other)
  }

  /** A contact without ':' is plain. */
  lemma NoColonIsPlain(contact: Contact)
    requires ':' !in contact
    ensures Plain(contact)
  {
    forall other: Contact ensures contact != MemberKey(other) {
      assert MemberKey(other)[|INVITED_NEW_MEMBER|] == ':';
      assert ':' in MemberKey(other);
    }
  }

  datatype Step = Set(team: Team, contacts: seq<Contact>, orderId: int) | Delete(team: Team, contact: Contact)

  function IndexAfter(index: Index, step: Step): Index {
    match step
    case Set(team, contacts, orderId) => InviteAll(index, team, contacts, orderId)
    case Delete(team, contact) => Withdraw(index, team, contact)
  }

  function Run(steps: seq<Step>): Index {
    if steps == [] then EMPTY
    else IndexAfter(Run(steps[..|steps| - 1]), steps[|steps| - 1])
  }

  ghost predicate OfTeams(steps: seq<Step>, teams: set<Team>) {
    forall step | step in steps :: step.team in teams
  }

  lemma {:induction false} InviteAllContents(index: Index, team: Team, contacts: seq<Contact>, orderId: int)
    ensures var invited := InviteAll(index, team, contacts, orderId);
            && (forall c, t ::
                  (c, t) in invited.memberTeams
                  <==> (c, t) in index.memberTeams || (t == team && c in contacts))
            && (forall u, c ::
                  (u, c) in invited.teamMembers
                  <==> (u, c) in index.teamMembers || (u == team.uuid && c in contacts))
            && (forall u, f ::
                  (u, f) in invited.orders
                  <==> (u, f) in index.orders || (u == team.uuid && f in contacts))
            && (forall u, f | (u, f) in invited.orders ::
                  invited.orders[(u, f)] == if u == team.uuid && f in contacts then orderId else index.orders[(u, f)])
    decreases |contacts|
  {
    if contacts != [] {
      var last := |contacts| - 1;
      InviteAllContents(index, team, contacts[..last], orderId);
      assert contacts == contacts[..last] + [contacts[last]];
    }
  }

  lemma AgreeKept(index: Index, step: Step, teams: set<Team>)
    requires UuidsDistinct(teams) && step.team in teams && Agree(index, teams)
    ensures Agree(IndexAfter(index, step), teams)
  {
    if step.Set? {
      InviteAllContents(index, step.team, step.contacts, step.orderId);
    }
  }

  /** In every run the two sides of the index agree. */
  lemma {:induction false} RunsAgree(steps: seq<Step>, teams: set<Team>)
    requires UuidsDistinct(teams) && OfTeams(steps, teams)
    ensures Agree(Run(steps), teams)
    decreases |steps|
  {
    if steps != [] {
      var front := steps[..|steps| - 1];
      RunsAgree(front, teams);
      AgreeKept(Run(front), steps[|steps| - 1], teams);
    }
  }

  // ---------------------------------------------------------------- orders

  /** The order id of the latest invitation of a contact by a team. */
  function LatestOrder(steps: seq<Step>, team: Team, contact: Contact): int {
    if steps == [] then -1
    else
      var step := steps[|steps| - 1];
      if step.Set? && step.team.uuid == team.uuid && contact in step.contacts then step.orderId
      else LatestOrder(steps[..|steps| - 1], team, contact)
  }

  /** Every pending invitation of a plain contact carries the order id of its latest invitation. */
  lemma {:induction false} PendingHasLatestOrder(steps: seq<Step>, team: Team, contact: Contact)
    requires Plain(contact)
    ensures Pending(Run(steps), team, contact) ==> (team.uuid, contact) in Run(steps).orders
    ensures (team.uuid, contact) in Run(steps).orders
            ==> OrderOf(Run(steps), team, contact) == LatestOrder(steps, team, contact)
    decreases |steps|
  {
    if steps != [] {
      var front, step := steps[..|steps| - 1], steps[|steps| - 1];
      PendingHasLatestOrder(front, team, contact);
      if step.Set? {
        InviteAllContents(Run(front), step.team, step.contacts, step.orderId);
      }
    }
  }

  /** A deletion leaves the order field of the contact it deletes behind. */
  lemma DeletionLeavesOrder(index: Index, team: Team, contact: Contact)
    requires Plain(contact) && (team.uuid, contact) in index.orders
    ensures !Pending(Withdraw(index, team, contact), team, contact)
    ensures OrderOf(Withdraw(index, team, contact), team, contact) == OrderOf(index, team, contact)
  {
  }

  /** The filter lists the contacts of the request that the team's own set lists. */
  lemma {:induction false} AlreadyInvitedMeaning(index: Index, team: Team, contacts: seq<Contact>, teams: set<Team>)
    requires Agree(index, teams) && team in teams
    ensures forall c ::
              c in AlreadyInvited(index, team, contacts)
              <==> c in contacts && c != "" && Pending(index, team, c)
    decreases |contacts|
  {
    if contacts != [] {
      var last := |contacts| - 1;
      AlreadyInvitedMeaning(index, team, contacts[..last], teams);
      assert contacts == contacts[..last] + [contacts[last]];
    }
  }

  /** It keeps their order: the filter of a concatenation is the concatenation of the filters. */
  lemma {:induction false} AlreadyInvitedInOrder(index: Index, team: Team, a: seq<Contact>, b: seq<Contact>)
    ensures AlreadyInvited(index, team, a + b) == AlreadyInvited(index, team, a) + AlreadyInvited(index, team, b)
    decreases |b|
  {
    if b == [] {
      assert a + b == a;
    } else {
      var last := |b| - 1;
      AlreadyInvitedInOrder(index, team, a, b[..last]);
      assert (a + b)[..|a + b| - 1] == a + b[..last];
    }
  }
}
