/**
 Members of teams: bulk invitation, sign-up through invitations, removal of a profile with its
 refund, and withdrawal of an invitation (ProfilesService), over the stored users, profiles and
 orders, the Redis member count and the invitation index.
 */
module Membership {
  import opened Wrappers
  import opened Invitations
  import opened Billing
  import opened Strings

  /** The contacts of an invitee or a user: an e-mail address, a phone number, or both. */
  datatype Person = Person(email: Option<Contact>, phone: Option<Contact>) {
    /** email || phone. */
    function Key(): Contact {
      if Truthy(email) then email.value else if phone.Some? then phone.value else ""
    }

    function Contacts(): set<Contact> {
      (if Truthy(email) then {email.value} else {}) + (if Truthy(phone) then {phone.value} else {})
    }
  }

  type Users = map<int, Person>

  datatype State = State(
    users: Users, profiles: map<int, Team>, memberCount: map<string, int>, index: Index, orders: map<int, OrderRow>)

  // ---------------------------------------------------------------- who is invited

  /** The search of users by the invited addresses and numbers. */
  predicate Matches(user: Person, member: Person) {
    || (Truthy(member.email) && user.email == member.email)
    || (Truthy(member.phone) && user.phone == member.phone)
  }

  /** The ids of the users found. */
  function SearchUsers(users: Users, members: seq<Person>): set<int> {
    set id | id in users && exists i | 0 <= i < |members| :: Matches(users[id], members[i])
  }

  function Searched(users: Users, members: seq<Person>): set<Person> {
    set id | id in SearchUsers(users, members) && id in users :: users[id]
  }

  /** The test of filterInvitedNewUsers, which takes a substring for a match. */
  predicate Found(user: Person, member: Person) {
    if Truthy(member.email) && Truthy(user.email) then Includes(user.email.value, member.email.value)
    else if Truthy(member.phone) && Truthy(user.phone) then Includes(user.phone.value, member.phone.value)
    else false
  }

  predicate IsNewUser(member: Person, searchedUsers: set<Person>) {
    forall user | user in searchedUsers :: !Found(user, member)
  }

  function FilterInvitedNewUsers(members: seq<Person>, searchedUsers: set<Person>): seq<Person> {
    if members == [] then []
    else
      var last := |members| - 1;
      FilterInvitedNewUsers(members[..last], searchedUsers) +
      if IsNewUser(members[last], searchedUsers) then [members[last]] else []
  }

  function Keys(members: seq<Person>): (keys: seq<Contact>)
    ensures |keys| == |members|
  {
    seq(|members|, i requires 0 <= i < |members| => members[i].Key())
  }

  /** The contacts that a bulk invitation enters in the index, in order. */
  function InvitedList(users: Users, members: seq<Person>): seq<Contact> {
    Keys(FilterInvitedNewUsers(members, Searched(users, members)))
  }

  /** emailBulk.length + phoneNumberBulk.length. */
  function InvitationCount(members: seq<Person>): nat {
    if members == [] then 0
    else
      var last := members[|members| - 1];
      InvitationCount(members[..|members| - 1]) +
      (if Truthy(last.email) then 1 else 0) + (if Truthy(last.phone) then 1 else 0)
  }

  // ---------------------------------------------------------------- steps

  /** Row ids are those the database handed out. */
  datatype Step =
    | CreateTeam(team: Team, profileId: int)
    | BulkInvite(team: Team, members: seq<Person>, amount: nat, orderId: int, profileIds: set<int>)
    | SignUp(userId: int, user: Person, teams: seq<Team>, ids: seq<int>)
    | UpdatePhone(userId: int, phone: Option<Contact>)
    | Remove(team: Team, profileId: int, orderId: int, daysLeft: int)
    | WithdrawInvitation(team: Team, contact: Contact)

  /** incrby and decrby, for which a missing key is 0. */
  function Increment(counts: map<string, int>, uuid: string, delta: int): map<string, int> {
    counts[uuid := (if uuid in counts then counts[uuid] else 0) + delta]
  }

  function InviteMembers(
      s: State, team: Team, members: seq<Person>, amount: nat, orderId: int, profileIds: set<int>): State
  {
    s.(
      profiles := s.profiles + map id | id in profileIds :: team,
      orders := s.orders[orderId := OrderRow(|members|, amount, profileIds, [])],
      memberCount := Increment(s.memberCount, team.uuid, InvitationCount(members)),
      index := InviteAll(s.index, team, InvitedList(s.users, members), orderId))
  }

  /** completeInvitation: both contacts of the user are deleted from the team's invitations. */
  function CompleteInvitation(index: Index, team: Team, user: Person): Index {
    var index' := if Truthy(user.email) then Withdraw(index, team, user.email.value) else index;
    if Truthy(user.phone) then Withdraw(index', team, user.phone.value) else index'
  }

  /** One team that invited the user: only a profile whose order is found completes its invitation. */
  function JoinTeam(s: State, user: Person, team: Team, profileId: int): State {
    var joined := s.(profiles := s.profiles[profileId := team]);
    var orderId := OrderOf(s.index, team, user.Key());
    if orderId in s.orders then
      var order := s.orders[orderId];
      joined.(
        orders := s.orders[orderId := order.(profileIds := order.profileIds + {profileId})],
        index := CompleteInvitation(s.index, team, user))
    else joined
  }

  function JoinTeams(s: State, user: Person, teams: seq<Team>, profileIds: seq<int>): State
    requires |teams| == |profileIds|
  {
    if teams == [] then s
    else
      var last := |teams| - 1;
      JoinTeam(JoinTeams(s, user, teams[..last], profileIds[..last]), user, teams[last], profileIds[last])
  }

  function RemoveProfile(s: State, team: Team, profileId: int, orderId: int, daysLeft: int): State
    requires orderId in s.orders
  {
    var order := s.orders[orderId];
    s.(
      profiles := s.profiles - {profileId},
      orders := s.orders[orderId := order.(refunds := order.refunds + [daysLeft])],
      memberCount := Increment(s.memberCount, team.uuid, -1))
  }

  /** Ids no row has had: not a profile's, nor one an order still lists. */
  ghost predicate FreshProfileId(s: State, id: int) {
    id !in s.profiles && forall orderId | orderId in s.orders :: id !in s.orders[orderId].profileIds
  }

  /** What the database and the caller provide for a step. */
  ghost predicate Enabled(s: State, step: Step) {
    match step
    case CreateTeam(team, profileId) =>
      team.uuid !in s.memberCount && FreshProfileId(s, profileId)
    case BulkInvite(team, members, amount, orderId, profileIds) =>
      && team.uuid in s.memberCount
      && orderId !in s.orders && orderId > 0
      && |profileIds| == |SearchUsers(s.users, members)|
      && (forall id | id in profileIds :: FreshProfileId(s, id))
    case SignUp(userId, user, teams, profileIds) =>
      && userId !in s.users && |teams| == |profileIds|
      && (forall i, j | 0 <= i < j < |teams| :: teams[i] != teams[j] && profileIds[i] != profileIds[j])
      && (forall team :: team in teams <==> (user.Key(), team) in s.index.memberTeams)
      && (forall id | id in profileIds :: FreshProfileId(s, id))
    case UpdatePhone(userId, phone) => userId in s.users
    case Remove(team, profileId, orderId, daysLeft) =>
      && profileId in s.profiles && s.profiles[profileId] == team
      && orderId in s.orders && profileId in s.orders[orderId].profileIds
      && 0 <= daysLeft <= 30
    case WithdrawInvitation(team, contact) => true
  }

  ghost function StateAfter(s: State, step: Step): State
    requires Enabled(s, step)
  {
    match step
    case CreateTeam(team, profileId) =>
      s.(profiles := s.profiles[profileId := team], memberCount := s.memberCount[team.uuid := 1])
    case BulkInvite(team, members, amount, orderId, profileIds) =>
      InviteMembers(s, team, members, amount, orderId, profileIds)
    case SignUp(userId, user, teams, profileIds) =>
      JoinTeams(s.(users := s.users[userId := user]), user, teams, profileIds)
    case UpdatePhone(userId, phone) =>
      s.(users := s.users[userId := s.users[userId].(phone := phone)])
    case Remove(team, profileId, orderId, daysLeft) =>
      RemoveProfile(s, team, profileId, orderId, daysLeft)
    case WithdrawInvitation(team, contact) =>
      s.(index := Withdraw(s.index, team, contact), memberCount := Increment(s.memberCount, team.uuid, -1))
  }

  // ---------------------------------------------------------------- the service

  /** The stores the service writes, and its operations in the order they write them. */
  class ProfilesService {
    var users: Users
    var profiles: map<int, Team>
    var memberCount: map<string, int>
    var index: Index
    var orders: map<int, OrderRow>

    function Contents(): State
      reads this
    {
      State(users, profiles, memberCount, index, orders)
    }

    /** createBulk; the amount is the proration of the products' price. */
    method CreateBulk(team: Team, invitedMembers: seq<Person>, amount: nat, orderId: int, profileIds: set<int>)
      requires Enabled(Contents(), BulkInvite(team, invitedMembers, amount, orderId, profileIds))
      modifies this
      ensures Contents() == StateAfter(old(Contents()), BulkInvite(team, invitedMembers, amount, orderId, profileIds))
    {
      var searchedUsers := Searched(users, invitedMembers);
      profiles := profiles + map id | id in profileIds :: team;
      orders := orders[orderId := OrderRow(|invitedMembers|, amount, profileIds, [])];
      memberCount := Increment(memberCount, team.uuid, InvitationCount(invitedMembers));
      var invitedNewUsers := FilterInvitedNewUsers(invitedMembers, searchedUsers);
      if invitedNewUsers != [] {
        index := InviteAll(index, team, Keys(invitedNewUsers), orderId);
      }
    }

    /** _createInvitedProfiles and completeInvitation for a new user. */
    method CreateInvitedProfiles(userId: int, user: Person, teams: seq<Team>, ids: seq<int>)
      requires Enabled(Contents(), SignUp(userId, user, teams, ids))
      modifies this
      ensures Contents() == StateAfter(old(Contents()), SignUp(userId, user, teams, ids))
    {
      users := users[userId := user];
      ghost var start := Contents();
      for i := 0 to |teams|
        invariant Contents() == JoinTeams(start, user, teams[..i], ids[..i])
      {
        assert teams[..i + 1][..i] == teams[..i] && ids[..i + 1][..i] == ids[..i];
        var orderId := OrderOf(index, teams[i], user.Key());
        profiles := profiles[ids[i] := teams[i]];
        if orderId in orders {
          orders := orders[orderId := orders[orderId].(profileIds := orders[orderId].profileIds + {ids[i]})];
          index := CompleteInvitation(index, teams[i], user);
        }
      }
      assert teams[..|teams|] == teams && ids[..|ids|] == ids;
    }

    /** remove, once the order that lists the profile is found. */
    method RemoveOne(team: Team, profileId: int, orderId: int, daysLeft: int)
      requires Enabled(Contents(), Remove(team, profileId, orderId, daysLeft))
      modifies this
      ensures Contents() == StateAfter(old(Contents()), Remove(team, profileId, orderId, daysLeft))
    {
      profiles := profiles - {profileId};
      orders := orders[orderId := orders[orderId].(refunds := orders[orderId].refunds + [daysLeft])];
      memberCount := Increment(memberCount, team.uuid, -1);
    }

    method RemoveUnsignedUserInvitation(team: Team, contact: Contact)
      modifies this
      ensures Contents() == StateAfter(old(Contents()), WithdrawInvitation(team, contact))
    {
      index := Withdraw(index, team, contact);
      memberCount := Increment(memberCount, team.uuid, -1);
    }
  }

  // ---------------------------------------------------------------- the index and the profiles

  function Members(s: State, team: Team): set<int> {
    set id | id in s.profiles && s.profiles[id] == team
  }

  function PendingContacts(index: Index, team: Team): set<Contact> {
    set pair | pair in index.teamMembers && pair.0 == team.uuid :: pair.1
  }

  /** The two sides of the index agree; every pending contact is plain and its order exists. */
  ghost predicate IndexOk(s: State, teams: set<Team>) {
    && Agree(s.index, teams)
    && (forall pair | pair in s.index.teamMembers ::
          && Plain(pair.1) && pair.1 != "" && pair.0 in s.memberCount
          && pair in s.index.orders && s.index.orders[pair] in s.orders)
    && (forall id | id in s.profiles :: s.profiles[id] in teams && s.profiles[id].uuid in s.memberCount)
  }

  /** What every step keeps, whatever it does to the counts. */
  ghost predicate Sound(s: State, teams: set<Team>) {
    UuidsDistinct(teams) && IndexOk(s, teams)
  }

  const EMPTY_STATE: State := State(map[], map[], map[], EMPTY, map[])

  /** The teams are known, and every invitee has a contact that does not read like a Redis key. */
  ghost predicate StepOk(s: State, step: Step, teams: set<Team>) {
    && Enabled(s, step)
    && match step
       case CreateTeam(team, _) => team in teams
       case BulkInvite(team, members, _, _, _) => team in teams && Addressed(members)
       case WithdrawInvitation(team, contact) => team in teams
       case _ => true
  }

  ghost predicate Addressed(members: seq<Person>) {
    forall member | member in members :: member.Key() != "" && Plain(member.Key())
  }

  /** Taking one contact out of a team's invitations, pending or not. */
  lemma WithdrawEffect(s: State, team: Team, contact: Contact, teams: set<Team>)
    requires Sound(s, teams) && team in teams
    ensures var index := Withdraw(s.index, team, contact);
            && Sound(s.(index := index), teams)
            && PendingContacts(index, team) == PendingContacts(s.index, team) - {contact}
            && (forall t | t in teams && t != team :: PendingContacts(index, t) == PendingContacts(s.index, t))
  {
    var index := Withdraw(s.index, team, contact);
    forall t | t in teams && t != team ensures PendingContacts(index, t) == PendingContacts(s.index, t) {
      assert t.uuid != team.uuid;
    }
  }

  /** Completing an invitation takes out both contacts of the user. */
  lemma CompleteEffect(s: State, team: Team, user: Person, teams: set<Team>)
    requires Sound(s, teams) && team in teams
    ensures var index := CompleteInvitation(s.index, team, user);
            && Sound(s.(index := index), teams)
            && PendingContacts(index, team) == PendingContacts(s.index, team) - user.Contacts()
            && (forall t | t in teams && t != team :: PendingContacts(index, t) == PendingContacts(s.index, t))
  {
    hide Sound, Withdraw, PendingContacts;
    var s1 := s;
    if Truthy(user.email) {
      WithdrawEffect(s, team, user.email.value, teams);
      s1 := s.(index := Withdraw(s.index, team, user.email.value));
    }
    if Truthy(user.phone) {
      WithdrawEffect(s1, team, user.phone.value, teams);
      assert s1.(index := Withdraw(s1.index, team, user.phone.value))
          == s.(index := CompleteInvitation(s.index, team, user));
    }
  }

  lemma InSets(index: Index, team: Team, contact: Contact)
    ensures contact in PendingContacts(index, team) <==> Pending(index, team, contact)
  {
    assert (team.uuid, contact).0 == team.uuid && (team.uuid, contact).1 == contact;
  }

  /** A team that invited the user has the contact pending, with an order that exists. */
  lemma InvitedHasOrder(s: State, user: Person, team: Team, teams: set<Team>)
    requires Sound(s, teams) && team in teams && (user.Key(), team) in s.index.memberTeams
    ensures Pending(s.index, team, user.Key()) && user.Key() in user.Contacts()
    ensures OrderOf(s.index, team, user.Key()) in s.orders && team.uuid in s.memberCount
  {
    assert (team.uuid, user.Key()) in s.index.teamMembers;
  }

  /** What joining one team does, the order p being the invitation's. */
  ghost predicate Joined(s: State, s': State, user: Person, team: Team, profileId: int, p: int)
    requires p in s.orders
  {
    && s'.users == s.users
    && s'.profiles == s.profiles[profileId := team]
    && s'.memberCount == s.memberCount
    && s'.orders == s.orders[p := s.orders[p].(profileIds := s.orders[p].profileIds + {profileId})]
    && s'.index == CompleteInvitation(s.index, team, user)
  }

  lemma JoinIsJoined(s: State, user: Person, team: Team, profileId: int, teams: set<Team>)
    requires Sound(s, teams) && team in teams && (user.Key(), team) in s.index.memberTeams
    ensures var p := OrderOf(s.index, team, user.Key());
            p in s.orders && Joined(s, JoinTeam(s, user, team, profileId), user, team, profileId, p)
  {
    InvitedHasOrder(s, user, team, teams);
    hide CompleteInvitation;
  }

  lemma JoinSound(s: State, user: Person, team: Team, profileId: int, teams: set<Team>)
    requires Sound(s, teams) && team in teams && (user.Key(), team) in s.index.memberTeams
    ensures Sound(JoinTeam(s, user, team, profileId), teams)
  {
    InvitedHasOrder(s, user, team, teams);
    JoinIsJoined(s, user, team, profileId, teams);
    CompleteEffect(s, team, user, teams);
    hide CompleteInvitation, JoinTeam;
  }

  /** Joining adds a profile of the team and takes out the user's contacts; the count is not touched. */
  ghost predicate Effect(s: State, s': State, user: Person, t: Team, joined: bool) {
    && s'.memberCount == s.memberCount
    && |Members(s', t)| == |Members(s, t)| + (if joined then 1 else 0)
    && PendingContacts(s'.index, t) == PendingContacts(s.index, t) - (if joined then user.Contacts() else {})
  }

  lemma EffectsCompose(s: State, mid: State, s': State, user: Person, t: Team, first: bool, second: bool)
    requires Effect(s, mid, user, t, first) && Effect(mid, s', user, t, second) && !(first && second)
    ensures Effect(s, s', user, t, first || second)
  {
    hide Members, PendingContacts;
  }

  lemma JoinEffect(s: State, user: Person, team: Team, profileId: int, teams: set<Team>, t: Team)
    requires Sound(s, teams) && team in teams && (user.Key(), team) in s.index.memberTeams
    requires profileId !in s.profiles && t in teams
    ensures Effect(s, JoinTeam(s, user, team, profileId), user, t, t == team)
  {
    JoinIsJoined(s, user, team, profileId, teams);
    CompleteEffect(s, team, user, teams);
    JoinMembers(s, JoinTeam(s, user, team, profileId), team, profileId, t);
    hide CompleteInvitation, PendingContacts, Sound, JoinTeam, Members;
    var pending := PendingContacts(s.index, t);
    assert pending - {} == pending;
  }

  lemma JoinMembers(s: State, s': State, team: Team, profileId: int, t: Team)
    requires s'.profiles == s.profiles[profileId := team] && profileId !in s.profiles
    ensures |Members(s', t)| == |Members(s, t)| + (if t == team then 1 else 0)
  {
    assert Members(s', t) == if t == team then Members(s, t) + {profileId} else Members(s, t);
  }

  /** It leaves the invitations of other teams and the other fresh ids alone. */
  lemma JoinLeaves(s: State, user: Person, team: Team, profileId: int, teams: set<Team>)
    requires Sound(s, teams) && team in teams && (user.Key(), team) in s.index.memberTeams
    ensures var s' := JoinTeam(s, user, team, profileId);
            && (forall c, t | t != team :: (c, t) in s'.index.memberTeams <==> (c, t) in s.index.memberTeams)
            && (user.Key(), team) !in s'.index.memberTeams
            && (forall id | id != profileId && FreshProfileId(s, id) :: FreshProfileId(s', id))
  {
    InvitedHasOrder(s, user, team, teams);
    hide Sound;
  }

  /** The sign-up of a user: the teams in joined are those that invited the user, each with a fresh profile id. */
  ghost predicate Joinable(s: State, user: Person, joined: seq<Team>, ids: seq<int>, teams: set<Team>) {
    && |joined| == |ids|
    && (forall team | team in joined :: team in teams && (user.Key(), team) in s.index.memberTeams)
    && (forall i, j | 0 <= i < j < |joined| :: joined[i] != joined[j] && ids[i] != ids[j])
    && (forall id | id in ids :: FreshProfileId(s, id))
  }

  lemma LastApart<T>(list: seq<T>)
    requires list != [] && forall i, j | 0 <= i < j < |list| :: list[i] != list[j]
    ensures var last := |list| - 1;
            && list[last] in list && list[last] !in list[..last]
            && (forall x :: x in list <==> x in list[..last] || x == list[last])
  {
    assert list == list[..|list| - 1] + [list[|list| - 1]];
  }

  lemma JoinableFront(s: State, user: Person, joined: seq<Team>, ids: seq<int>, teams: set<Team>)
    requires Joinable(s, user, joined, ids, teams) && joined != []
    ensures var last := |joined| - 1;
            && Joinable(s, user, joined[..last], ids[..last], teams)
            && joined[last] in teams && joined[last] !in joined[..last]
            && ids[last] !in ids[..last] && FreshProfileId(s, ids[last])
            && (user.Key(), joined[last]) in s.index.memberTeams
            && (forall t :: t in joined <==> t in joined[..last] || t == joined[last])
            && (forall id :: id in ids <==> id in ids[..last] || id == ids[last])
  {
    hide FreshProfileId;
    LastApart(joined);
    LastApart(ids);
  }

  /** All joins: the index stays sound, and the invitations and ids of others are left alone. */
  lemma {:induction false} JoinsSound(s: State, user: Person, joined: seq<Team>, ids: seq<int>, teams: set<Team>)
    requires Sound(s, teams) && Joinable(s, user, joined, ids, teams)
    ensures var s' := JoinTeams(s, user, joined, ids);
            && Sound(s', teams)
            && (forall c, t | t !in joined :: (c, t) in s'.index.memberTeams <==> (c, t) in s.index.memberTeams)
            && (forall t | t in joined :: (user.Key(), t) !in s'.index.memberTeams)
            && (forall id | id !in ids && FreshProfileId(s, id) :: FreshProfileId(s', id))
    decreases |joined|
  {
    if joined == [] {
      return;
    }
    hide Sound, JoinTeam, FreshProfileId, Joinable;
    var last := |joined| - 1;
    JoinableFront(s, user, joined, ids, teams);
    JoinsSound(s, user, joined[..last], ids[..last], teams);
    var before := JoinTeams(s, user, joined[..last], ids[..last]);
    JoinSound(before, user, joined[last], ids[last], teams);
    JoinLeaves(before, user, joined[last], ids[last], teams);
  }

  lemma {:induction false} JoinsEffect(
      s: State, user: Person, joined: seq<Team>, ids: seq<int>, teams: set<Team>, t: Team)
    requires Sound(s, teams) && Joinable(s, user, joined, ids, teams) && t in teams
    ensures Effect(s, JoinTeams(s, user, joined, ids), user, t, t in joined)
    decreases |joined|
  {
    if joined == [] {
      return;
    }
    hide Sound, JoinTeam, Joinable, Effect;
    var last := |joined| - 1;
    JoinableFront(s, user, joined, ids, teams);
    JoinsEffect(s, user, joined[..last], ids[..last], teams, t);
    JoinsSound(s, user, joined[..last], ids[..last], teams);
    var before := JoinTeams(s, user, joined[..last], ids[..last]);
    JoinEffect(before, user, joined[last], ids[last], teams, t);
    EffectsCompose(s, before, JoinTeams(s, user, joined, ids), user, t, t in joined[..last], t == joined[last]);
  }

  lemma SignUpReady(s: State, userId: int, user: Person, joined: seq<Team>, ids: seq<int>, teams: set<Team>)
    requires Sound(s, teams) && Enabled(s, SignUp(userId, user, joined, ids))
    ensures var started := s.(users := s.users[userId := user]);
            Sound(started, teams) && Joinable(started, user, joined, ids, teams)
  {
    assert forall team | team in joined :: (user.Key(), team) in s.index.memberTeams;
  }

  lemma InviteSound(
      s: State, team: Team, members: seq<Person>, amount: nat, orderId: int, profileIds: set<int>, teams: set<Team>)
    requires Sound(s, teams) && team in teams && Addressed(members)
    requires Enabled(s, BulkInvite(team, members, amount, orderId, profileIds))
    ensures Sound(InviteMembers(s, team, members, amount, orderId, profileIds), teams)
  {
    var keys := InvitedList(s.users, members);
    InviteAllContents(s.index, team, keys, orderId);
    InvitedAddressed(s.users, members);
    AgreeKept(s.index, Invitations.Set(team, keys, orderId), teams);
    hide InvitedList, InviteAll, Addressed;
  }

  lemma {:induction false} FilterElements(members: seq<Person>, searchedUsers: set<Person>)
    ensures forall member :: member in FilterInvitedNewUsers(members, searchedUsers) <==>
              member in members && IsNewUser(member, searchedUsers)
    decreases |members|
  {
    if members != [] {
      var front, member := members[..|members| - 1], members[|members| - 1];
      assert members == front + [member];
      FilterElements(front, searchedUsers);
    }
  }

  lemma InvitedAddressed(users: Users, members: seq<Person>)
    requires Addressed(members)
    ensures forall key | key in InvitedList(users, members) :: key != "" && Plain(key)
  {
    var invited := FilterInvitedNewUsers(members, Searched(users, members));
    FilterElements(members, Searched(users, members));
    forall key | key in InvitedList(users, members) ensures key != "" && Plain(key) {
      var i :| 0 <= i < |invited| && Keys(invited)[i] == key;
      assert invited[i] in invited;
    }
  }

  lemma StepSound(s: State, step: Step, teams: set<Team>)
    requires Sound(s, teams) && StepOk(s, step, teams)
    ensures Sound(StateAfter(s, step), teams)
  {
    match step
    case BulkInvite(team, members, amount, orderId, profileIds) =>
      InviteSound(s, team, members, amount, orderId, profileIds, teams);
    case SignUp(userId, user, joined, ids) =>
      SignUpReady(s, userId, user, joined, ids, teams);
      JoinsSound(s.(users := s.users[userId := user]), user, joined, ids, teams);
      hide Sound;
    case WithdrawInvitation(team, contact) =>
      WithdrawSound(s, team, contact, teams);
    case _ =>
  }

  lemma WithdrawSound(s: State, team: Team, contact: Contact, teams: set<Team>)
    requires Sound(s, teams) && team in teams
    ensures Sound(StateAfter(s, WithdrawInvitation(team, contact)), teams)
  {
    WithdrawEffect(s, team, contact, teams);
  }

  // ---------------------------------------------------------------- the member count

  /** The member count of a team is its profiles plus its pending invitations. */
  ghost predicate Conserved(s: State, team: Team) {
    team.uuid in s.memberCount ==> s.memberCount[team.uuid] == |Members(s, team)| + |PendingContacts(s.index, team)|
  }

  ghost predicate AllConserved(s: State, teams: set<Team>) {
    forall team | team in teams :: Conserved(s, team)
  }

  lemma RemoveConserves(s: State, step: Step, teams: set<Team>)
    requires step.Remove? && Sound(s, teams) && AllConserved(s, teams) && StepOk(s, step, teams)
    ensures AllConserved(StateAfter(s, step), teams)
  {
    var s' := StateAfter(s, step);
    forall t | t in teams ensures Conserved(s', t) {
      assert Conserved(s, t);
      assert Members(s', t) == if t == step.team then Members(s, t) - {step.profileId} else Members(s, t);
    }
  }

  lemma WithdrawTeam(s: State, team: Team, contact: Contact, teams: set<Team>, t: Team)
    requires Sound(s, teams) && Conserved(s, t) && team in teams && t in teams
    ensures Conserved(StateAfter(s, WithdrawInvitation(team, contact)), t) <==>
            (t == team ==> Pending(s.index, team, contact))
  {
    WithdrawEffect(s, team, contact, teams);
    InSets(s.index, team, contact);
    if team.uuid !in s.memberCount {
      UncountedIsEmpty(s, team, teams);
    }
    assert t != team ==> t.uuid != team.uuid;
    hide Sound, Withdraw, PendingContacts, Pending;
    assert Members(StateAfter(s, WithdrawInvitation(team, contact)), t) == Members(s, t);
    hide Members;
  }

  /** The count is decremented whether or not there was an invitation: it must have been pending. */
  lemma WithdrawalConservesIff(s: State, team: Team, contact: Contact, teams: set<Team>)
    requires Sound(s, teams) && AllConserved(s, teams) && team in teams
    ensures AllConserved(StateAfter(s, WithdrawInvitation(team, contact)), teams) <==> Pending(s.index, team, contact)
  {
    forall t | t in teams
      ensures Conserved(StateAfter(s, WithdrawInvitation(team, contact)), t) <==>
              (t == team ==> Pending(s.index, team, contact))
    {
      WithdrawTeam(s, team, contact, teams, t);
    }
    hide Sound, Withdraw, Pending, Conserved;
  }

  /** A team that has no count yet has no profile and no invitation. */
  lemma UncountedIsEmpty(s: State, team: Team, teams: set<Team>)
    requires Sound(s, teams) && team.uuid !in s.memberCount
    ensures Members(s, team) == {} && PendingContacts(s.index, team) == {}
  {
    forall id ensures id !in Members(s, team) {
    }
    forall c ensures c !in PendingContacts(s.index, team) {
    }
  }

  lemma CreateTeamConserves(s: State, team: Team, profileId: int, teams: set<Team>)
    requires Sound(s, teams) && AllConserved(s, teams) && team in teams && Enabled(s, CreateTeam(team, profileId))
    ensures AllConserved(StateAfter(s, CreateTeam(team, profileId)), teams)
  {
    var s' := StateAfter(s, CreateTeam(team, profileId));
    UncountedIsEmpty(s, team, teams);
    forall t | t in teams ensures Conserved(s', t) {
      assert Conserved(s, t);
      assert Members(s', t) == if t == team then {profileId} else Members(s, t);
    }
  }

  // ---------------------------------------------------------------- the member count at sign-up

  /** The user's phone number is pending beside the e-mail address that the sign-up looks up. */
  predicate SecondPending(index: Index, user: Person, team: Team) {
    && Truthy(user.email) && Truthy(user.phone) && user.phone != user.email
    && Pending(index, team, user.phone.value)
  }

  /** How many of a team's pending contacts a sign-up takes out. */
  lemma TakenOut(index: Index, user: Person, team: Team)
    requires Pending(index, team, user.Key()) && user.Key() in user.Contacts()
    ensures var pending := PendingContacts(index, team);
            |pending - user.Contacts()| == |pending| - (if SecondPending(index, user, team) then 2 else 1)
  {
    var pending := PendingContacts(index, team);
    InSets(index, team, user.Key());
    if user.phone.Some? {
      InSets(index, team, user.phone.value);
    }
    hide PendingContacts, Pending;
    if SecondPending(index, user, team) {
      assert pending - user.Contacts() == pending - {user.Key()} - {user.phone.value};
    } else {
      assert pending - user.Contacts() == pending - {user.Key()};
    }
  }

  lemma SignUpTeam(
      s: State, userId: int, user: Person, joined: seq<Team>, ids: seq<int>, teams: set<Team>, t: Team)
    requires Sound(s, teams) && Conserved(s, t) && t in teams && Enabled(s, SignUp(userId, user, joined, ids))
    ensures Conserved(StateAfter(s, SignUp(userId, user, joined, ids)), t) <==>
            (t in joined ==> !SecondPending(s.index, user, t))
  {
    var started := s.(users := s.users[userId := user]);
    SignUpReady(s, userId, user, joined, ids, teams);
    JoinsEffect(started, user, joined, ids, teams, t);
    assert Members(started, t) == Members(s, t);
    if t in joined {
      InvitedHasOrder(s, user, t, teams);
      TakenOut(s.index, user, t);
    }
    hide Sound, JoinTeams, SecondPending, PendingContacts, Members, Joinable;
  }

  /**
   A sign-up deletes both contacts of the user but adds one profile: it keeps the counts exactly when no team that
   invited the user's e-mail address has the phone number pending as well.
   */
  lemma SignUpConservesIff(s: State, userId: int, user: Person, joined: seq<Team>, ids: seq<int>, teams: set<Team>)
    requires Sound(s, teams) && AllConserved(s, teams) && Enabled(s, SignUp(userId, user, joined, ids))
    ensures AllConserved(StateAfter(s, SignUp(userId, user, joined, ids)), teams) <==>
            forall t | t in joined :: !SecondPending(s.index, user, t)
  {
    forall t | t in teams
      ensures Conserved(StateAfter(s, SignUp(userId, user, joined, ids)), t) <==>
              (t in joined ==> !SecondPending(s.index, user, t))
    {
      SignUpTeam(s, userId, user, joined, ids, teams, t);
    }
    SignUpReady(s, userId, user, joined, ids, teams);
    hide Sound, JoinTeams, SecondPending, Conserved;
  }

  /** The failing case: the team then counts one more than it has. */
  lemma SecondContactMiscounts(
      s: State, userId: int, user: Person, joined: seq<Team>, ids: seq<int>, teams: set<Team>, t: Team)
    requires Sound(s, teams) && Conserved(s, t) && t in teams && Enabled(s, SignUp(userId, user, joined, ids))
    requires t in joined && SecondPending(s.index, user, t)
    ensures var s' := StateAfter(s, SignUp(userId, user, joined, ids));
            && t.uuid in s'.memberCount
            && s'.memberCount[t.uuid] == |Members(s', t)| + |PendingContacts(s'.index, t)| + 1
  {
    var started := s.(users := s.users[userId := user]);
    SignUpReady(s, userId, user, joined, ids, teams);
    JoinsEffect(started, user, joined, ids, teams, t);
    assert Members(started, t) == Members(s, t);
    InvitedHasOrder(s, user, t, teams);
    TakenOut(s.index, user, t);
    hide Sound, JoinTeams, SecondPending, PendingContacts, Members, Joinable;
  }

  /** Whatever the counts do, no team keeps an invitation of the contact that was looked up. */
  lemma SignUpCompletes(s: State, userId: int, user: Person, joined: seq<Team>, ids: seq<int>, teams: set<Team>)
    requires Sound(s, teams) && Enabled(s, SignUp(userId, user, joined, ids))
    ensures forall team ::
              (user.Key(), team) !in StateAfter(s, SignUp(userId, user, joined, ids)).index.memberTeams
  {
    var started := s.(users := s.users[userId := user]);
    SignUpReady(s, userId, user, joined, ids, teams);
    JoinsSound(started, user, joined, ids, teams);
    hide Sound, JoinTeams;
  }

  // ---------------------------------------------------------------- the member count at a bulk invitation

  function Elements(keys: seq<Contact>): set<Contact> {
    set key | key in keys
  }

  function InvitedKeys(users: Users, members: seq<Person>): set<Contact> {
    Elements(InvitedList(users, members))
  }

  /** As many contacts in the request as users found and contacts that are pending only from now on. */
  predicate Balanced(s: State, team: Team, members: seq<Person>) {
    InvitationCount(members) ==
    |SearchUsers(s.users, members)| + |InvitedKeys(s.users, members) - PendingContacts(s.index, team)|
  }

  /** What an invitation of new users adds to the pending contacts. */
  lemma PendingAfterInvite(index: Index, team: Team, keys: seq<Contact>, orderId: int, t: Team)
    ensures PendingContacts(InviteAll(index, team, keys, orderId), t) ==
            PendingContacts(index, t) + if t.uuid == team.uuid then Elements(keys) else {}
  {
    InviteAllContents(index, team, keys, orderId);
    var invited := InviteAll(index, team, keys, orderId);
    forall c ensures c in PendingContacts(invited, t) <==> (t.uuid, c) in invited.teamMembers {
      InSets(invited, t, c);
    }
    forall c ensures c in PendingContacts(index, t) <==> (t.uuid, c) in index.teamMembers {
      InSets(index, t, c);
    }
  }

  lemma MembersAfterInvite(s: State, s': State, team: Team, profileIds: set<int>, t: Team)
    requires s'.profiles == s.profiles + map id | id in profileIds :: team
    requires forall id | id in profileIds :: id !in s.profiles
    ensures |Members(s', t)| == |Members(s, t)| + (if t == team then |profileIds| else 0)
  {
    forall id | id in Members(s, t) ensures id !in profileIds {
      assert id in s.profiles;
    }
    forall id ensures id in Members(s', t) <==> id in Members(s, t) || (t == team && id in profileIds) {
      assert id in s.profiles ==> id !in profileIds;
    }
    assert Members(s', t) == Members(s, t) + if t == team then profileIds else {};
  }

  /** What a bulk invitation adds to each side of the balance, for any request. */
  lemma BulkInviteEffect(
      s: State, team: Team, members: seq<Person>, amount: nat, orderId: int, profileIds: set<int>, t: Team)
    requires Enabled(s, BulkInvite(team, members, amount, orderId, profileIds))
    requires t.uuid == team.uuid ==> t == team
    ensures var s' := InviteMembers(s, team, members, amount, orderId, profileIds);
            && (t.uuid in s'.memberCount <==> t.uuid in s.memberCount)
            && (t.uuid in s.memberCount ==>
                  s'.memberCount[t.uuid] == s.memberCount[t.uuid] + if t == team then InvitationCount(members) else 0)
            && |Members(s', t)| == |Members(s, t)| + (if t == team then |SearchUsers(s.users, members)| else 0)
            && PendingContacts(s'.index, t) ==
               PendingContacts(s.index, t) + (if t == team then InvitedKeys(s.users, members) else {})
  {
    MembersAfterInvite(s, InviteMembers(s, team, members, amount, orderId, profileIds), team, profileIds, t);
    PendingAfterInvite(s.index, team, InvitedList(s.users, members), orderId, t);
    hide Members, PendingContacts, SearchUsers, InvitedList, Elements, InviteAll, InvitationCount;
  }

  lemma UnionCount<T>(a: set<T>, b: set<T>)
    ensures |a + b| <= |a| + |b|
    ensures |a + b| == |a| + |b| <==> a * b == {}
    ensures |a + b| == |a| + |b - a|
  {
    assert |a + b| + |a * b| == |a| + |b|;
    assert a + b == a + (b - a);
  }

  /** The arithmetic of the balance of one team. */
  lemma BalanceShifts(count: int, counted: nat, members: nat, found: nat, pending: set<Contact>, invited: set<Contact>)
    requires count == members + |pending|
    ensures count + counted == members + found + |pending + invited| <==> counted == found + |invited - pending|
  {
    UnionCount(pending, invited);
  }

  lemma BulkInviteTeam(
      s: State, team: Team, members: seq<Person>, amount: nat, orderId: int, profileIds: set<int>)
    requires Enabled(s, BulkInvite(team, members, amount, orderId, profileIds)) && Conserved(s, team)
    ensures Conserved(InviteMembers(s, team, members, amount, orderId, profileIds), team)
            <==> Balanced(s, team, members)
  {
    BulkInviteEffect(s, team, members, amount, orderId, profileIds, team);
    hide Members, PendingContacts, InvitedKeys, SearchUsers, InvitationCount, InviteMembers;
    BalanceShifts(s.memberCount[team.uuid], InvitationCount(members), |Members(s, team)|,
      |SearchUsers(s.users, members)|, PendingContacts(s.index, team), InvitedKeys(s.users, members));
  }

  lemma BulkInviteOther(
      s: State, team: Team, members: seq<Person>, amount: nat, orderId: int, profileIds: set<int>, t: Team)
    requires Enabled(s, BulkInvite(team, members, amount, orderId, profileIds)) && Conserved(s, t)
    requires t.uuid != team.uuid
    ensures Conserved(InviteMembers(s, team, members, amount, orderId, profileIds), t)
  {
    BulkInviteEffect(s, team, members, amount, orderId, profileIds, t);
    hide Members, PendingContacts, InvitedKeys, SearchUsers, InvitationCount, InviteMembers;
    var pending := PendingContacts(s.index, t);
    assert pending + {} == pending;
  }

  /** A bulk invitation keeps the counts exactly when the contacts it counts balance the users and contacts it adds. */
  lemma BulkInviteConservesIff(
      s: State, team: Team, members: seq<Person>, amount: nat, orderId: int, profileIds: set<int>, teams: set<Team>)
    requires Sound(s, teams) && AllConserved(s, teams) && team in teams
    requires Enabled(s, BulkInvite(team, members, amount, orderId, profileIds))
    ensures AllConserved(InviteMembers(s, team, members, amount, orderId, profileIds), teams) <==>
            Balanced(s, team, members)
  {
    forall t | t in teams
      ensures Conserved(InviteMembers(s, team, members, amount, orderId, profileIds), t) <==>
              (t == team ==> Balanced(s, team, members))
    {
      if t == team {
        BulkInviteTeam(s, team, members, amount, orderId, profileIds);
      } else {
        BulkInviteOther(s, team, members, amount, orderId, profileIds, t);
      }
    }
    hide Conserved, Balanced, InviteMembers, Enabled;
  }

  // ---------------------------------------------------------------- plain requests

  /** Invitees with one contact each, all different. */
  ghost predicate PlainRequest(members: seq<Person>) {
    && (forall member | member in members :: Truthy(member.email) != Truthy(member.phone))
    && (forall i, j | 0 <= i < j < |members| :: members[i].Key() != members[j].Key())
  }

  /** No two users have the same address or number; each may have both. */
  ghost predicate NoSharedContacts(users: Users) {
    forall a, b | a in users && b in users && a != b ::
      && (Truthy(users[a].email) ==> users[a].email != users[b].email)
      && (Truthy(users[a].phone) ==> users[a].phone != users[b].phone)
  }

  function MatchesOf(users: Users, member: Person): set<int> {
    set id | id in users && Matches(users[id], member)
  }

  predicate HasAccount(users: Users, member: Person) {
    exists id | id in users :: Matches(users[id], member)
  }

  /** No user is found by two invitees, such as one by the e-mail address and one by the phone number. */
  ghost predicate NoneFoundTwice(users: Users, members: seq<Person>) {
    forall id, i, j | id in users && 0 <= i < j < |members| ::
      !(Matches(users[id], members[i]) && Matches(users[id], members[j]))
  }

  /** No contact of an invitee without an account is part of the contact of a user found. */
  ghost predicate NoSubstringHit(users: Users, members: seq<Person>) {
    forall member | member in members && !HasAccount(users, member) :: IsNewUser(member, Searched(users, members))
  }

  /** The contacts of the invitees without an account. */
  function UnregisteredKeys(users: Users, members: seq<Person>): set<Contact> {
    set member | member in members && !HasAccount(users, member) :: member.Key()
  }

  /** No one invited without an account is already pending. */
  ghost predicate NonePending(s: State, team: Team, members: seq<Person>) {
    PendingContacts(s.index, team) * UnregisteredKeys(s.users, members) == {}
  }

  function AccountCount(users: Users, members: seq<Person>): nat {
    if members == [] then 0
    else
      var last := |members| - 1;
      AccountCount(users, members[..last]) + if HasAccount(users, members[last]) then 1 else 0
  }

  lemma PlainFront(members: seq<Person>)
    requires PlainRequest(members) && members != []
    ensures var last := |members| - 1;
            && PlainRequest(members[..last])
            && members == members[..last] + [members[last]]
            && Truthy(members[last].email) != Truthy(members[last].phone)
            && (forall member | member in members[..last] :: member.Key() != members[last].Key())
  {
    assert members[|members| - 1] in members;
  }

  lemma {:induction false} OneInvitationEach(members: seq<Person>)
    requires PlainRequest(members)
    ensures InvitationCount(members) == |members|
    decreases |members|
  {
    if members != [] {
      PlainFront(members);
      OneInvitationEach(members[..|members| - 1]);
    }
  }

  /** Every invitee has an account or has none. */
  lemma {:induction false} AccountsAndOthers(users: Users, members: seq<Person>)
    requires PlainRequest(members)
    ensures AccountCount(users, members) + |UnregisteredKeys(users, members)| == |members|
    decreases |members|
  {
    if members != [] {
      var front, member := members[..|members| - 1], members[|members| - 1];
      PlainFront(members);
      LastUnregistered(users, front, member);
      AccountsAndOthers(users, front);
      hide PlainRequest, UnregisteredKeys, HasAccount;
    }
  }

  lemma LastUnregistered(users: Users, front: seq<Person>, member: Person)
    requires forall other | other in front :: other.Key() != member.Key()
    ensures member.Key() !in UnregisteredKeys(users, front)
    ensures UnregisteredKeys(users, front + [member]) ==
            UnregisteredKeys(users, front) + if HasAccount(users, member) then {} else {member.Key()}
  {
    assert forall m :: m in front + [member] <==> m in front || m == member;
    hide HasAccount;
  }

  /** An invitee with one contact finds at most one user. */
  lemma FindsOne(users: Users, member: Person)
    requires NoSharedContacts(users) && Truthy(member.email) != Truthy(member.phone)
    ensures |MatchesOf(users, member)| == if HasAccount(users, member) then 1 else 0
  {
    if HasAccount(users, member) {
      var id :| id in users && Matches(users[id], member);
      forall other ensures other in MatchesOf(users, member) <==> other == id {
      }
      assert MatchesOf(users, member) == {id};
    } else {
      forall other ensures other !in MatchesOf(users, member) {
      }
      assert MatchesOf(users, member) == {};
    }
  }

  lemma SearchLast(users: Users, front: seq<Person>, member: Person)
    ensures SearchUsers(users, front + [member]) == SearchUsers(users, front) + MatchesOf(users, member)
  {
    var all := front + [member];
    forall id | id in users
      ensures (exists i | 0 <= i < |all| :: Matches(users[id], all[i])) <==>
              (exists i | 0 <= i < |front| :: Matches(users[id], front[i])) || Matches(users[id], member)
    {
      if i :| 0 <= i < |front| && Matches(users[id], front[i]) {
        assert all[i] == front[i];
      }
      assert all[|front|] == member;
    }
  }

  lemma TwiceLast(users: Users, front: seq<Person>, member: Person)
    ensures NoneFoundTwice(users, front + [member]) <==>
            NoneFoundTwice(users, front) && SearchUsers(users, front) * MatchesOf(users, member) == {}
  {
    var all := front + [member];
    assert forall i | 0 <= i < |front| :: all[i] == front[i];
    assert all[|front|] == member;
    hide Matches;
    if NoneFoundTwice(users, all) {
      forall id | id in SearchUsers(users, front) ensures id !in MatchesOf(users, member) {
        var i :| 0 <= i < |front| && Matches(users[id], front[i]);
        assert !(Matches(users[id], all[i]) && Matches(users[id], all[|front|]));
      }
    } else {
      var id, i, j :| id in users && 0 <= i < j < |all| && Matches(users[id], all[i]) && Matches(users[id], all[j]);
      if j == |front| {
        assert id in SearchUsers(users, front) * MatchesOf(users, member);
      }
    }
  }

  /** The users found are at most one for each invitee with an account, and fewer when one is found twice. */
  lemma {:induction false} FoundPerInvitee(users: Users, members: seq<Person>)
    requires PlainRequest(members) && NoSharedContacts(users)
    ensures |SearchUsers(users, members)| <= AccountCount(users, members)
    ensures |SearchUsers(users, members)| == AccountCount(users, members) <==> NoneFoundTwice(users, members)
    decreases |members|
  {
    if members == [] {
      assert SearchUsers(users, members) == {};
      return;
    }
    var front, member := members[..|members| - 1], members[|members| - 1];
    PlainFront(members);
    FoundPerInvitee(users, front);
    FindsOne(users, member);
    SearchLast(users, front, member);
    TwiceLast(users, front, member);
    UnionCount(SearchUsers(users, front), MatchesOf(users, member));
    hide PlainRequest, NoSharedContacts, SearchUsers, MatchesOf, NoneFoundTwice, HasAccount;
  }

  lemma MatchIsFound(user: Person, member: Person)
    requires Truthy(member.email) != Truthy(member.phone) && Matches(user, member)
    ensures Found(user, member)
  {
    if Truthy(member.email) {
      IncludesSelf(member.email.value);
    } else {
      IncludesSelf(member.phone.value);
    }
  }

  /** An invitee with an account is never invited anew. */
  lemma AccountIsNoNewUser(users: Users, members: seq<Person>, member: Person)
    requires PlainRequest(members) && member in members && IsNewUser(member, Searched(users, members))
    ensures !HasAccount(users, member)
  {
    if HasAccount(users, member) {
      var id :| id in users && Matches(users[id], member);
      var i :| 0 <= i < |members| && members[i] == member;
      assert Matches(users[id], members[i]);
      assert users[id] in Searched(users, members);
      MatchIsFound(users[id], member);
    }
  }

  lemma InvitedIff(users: Users, members: seq<Person>, member: Person)
    requires PlainRequest(members) && member in members
    ensures member.Key() in InvitedKeys(users, members) <==> IsNewUser(member, Searched(users, members))
  {
    hide Searched, IsNewUser;
    var invited := FilterInvitedNewUsers(members, Searched(users, members));
    FilterElements(members, Searched(users, members));
    if member in invited {
      var i :| 0 <= i < |invited| && invited[i] == member;
      assert Keys(invited)[i] == member.Key();
    }
    if member.Key() in InvitedKeys(users, members) {
      var i :| 0 <= i < |invited| && Keys(invited)[i] == member.Key();
      assert invited[i] in invited && invited[i] in members;
      assert invited[i] == member;
    }
  }

  /** Only invitees without an account are entered in the index, and all of them exactly when no substring hits. */
  lemma AllInvitedIff(users: Users, members: seq<Person>)
    requires PlainRequest(members)
    ensures InvitedKeys(users, members) <= UnregisteredKeys(users, members)
    ensures InvitedKeys(users, members) == UnregisteredKeys(users, members) <==> NoSubstringHit(users, members)
  {
    InvitedFromMembers(users, members);
    forall member | member in members
      ensures member.Key() in InvitedKeys(users, members) <==> IsNewUser(member, Searched(users, members))
      ensures IsNewUser(member, Searched(users, members)) ==> !HasAccount(users, member)
    {
      InvitedIff(users, members, member);
      if IsNewUser(member, Searched(users, members)) {
        AccountIsNoNewUser(users, members, member);
      }
    }
    hide HasAccount, IsNewUser, Searched, InvitedKeys;
  }

  lemma InvitedFromMembers(users: Users, members: seq<Person>)
    ensures forall key | key in InvitedKeys(users, members) :: exists member :: member in members && member.Key() == key
  {
    var invited := FilterInvitedNewUsers(members, Searched(users, members));
    FilterElements(members, Searched(users, members));
    forall key | key in InvitedKeys(users, members) ensures exists member :: member in members && member.Key() == key {
      var i :| 0 <= i < |invited| && Keys(invited)[i] == key;
      assert invited[i] in invited && invited[i].Key() == key;
    }
  }

  lemma SubsetCount<T>(a: set<T>, b: set<T>)
    requires a <= b
    ensures |a| <= |b| && (|a| == |b| <==> a == b)
  {
    assert b == a + (b - a);
    assert |b| == |a| + |b - a|;
    if |a| == |b| {
      forall x | x in b ensures x in a {
        assert x !in a ==> x in b - a;
      }
    }
  }

  /** New contacts are all of a larger set exactly when they are that set and none of it is pending. */
  lemma NewOfAll(invited: set<Contact>, pending: set<Contact>, all: set<Contact>)
    requires invited <= all
    ensures |invited - pending| <= |all|
    ensures |invited - pending| == |all| <==> invited == all && pending * all == {}
  {
    SubsetCount(invited - pending, all);
    if invited - pending == all {
      assert forall x | x in all :: x in invited - pending;
    }
  }

  /**
   For a plain request among users who share no contact, the balance holds exactly when no user is found by two
   invitees, no substring hits, and no new contact is already pending.
   */
  lemma PlainRequestBalancesIff(s: State, team: Team, members: seq<Person>)
    requires PlainRequest(members) && NoSharedContacts(s.users)
    ensures Balanced(s, team, members) <==>
            && NoneFoundTwice(s.users, members) && NoSubstringHit(s.users, members) && NonePending(s, team, members)
  {
    OneInvitationEach(members);
    AccountsAndOthers(s.users, members);
    FoundPerInvitee(s.users, members);
    AllInvitedIff(s.users, members);
    NewOfAll(InvitedKeys(s.users, members), PendingContacts(s.index, team), UnregisteredKeys(s.users, members));
    hide PlainRequest, NoSharedContacts, NoneFoundTwice, NoSubstringHit, InvitedKeys, UnregisteredKeys, SearchUsers,
      PendingContacts, AccountCount, InvitationCount;
  }

  // ---------------------------------------------------------------- who is found and who is invited, in plain terms

  /** The invitee's e-mail address or phone number, not empty, is the user's. */
  ghost predicate SharesContact(user: Person, member: Person) {
    || (member.email.Some? && member.email.value != "" && user.email == Some(member.email.value))
    || (member.phone.Some? && member.phone.value != "" && user.phone == Some(member.phone.value))
  }

  /** Exactly the stored users who share a contact with an invitee are found. */
  lemma SearchedIff(users: Users, members: seq<Person>, id: int)
    ensures id in SearchUsers(users, members) <==>
            id in users && exists i :: 0 <= i < |members| && SharesContact(users[id], members[i])
  {
    if id in users {
      forall i | 0 <= i < |members| ensures Matches(users[id], members[i]) <==> SharesContact(users[id], members[i]) {
      }
      hide Matches, SharesContact;
    }
  }

  /** One text is cut out of the other. */
  ghost predicate PartOf(part: string, text: string) {
    exists before: string, after: string :: text == before + part + after
  }

  lemma IncludesIff(text: string, part: string)
    ensures Includes(text, part) <==> PartOf(part, text)
  {
    if i :| 0 <= i <= |text| - |part| && OccursAt(text, part, i) {
      assert text == text[..i] + part + text[i + |part|..];
    }
    if PartOf(part, text) {
      var before, after :| text == before + part + after;
      assert OccursAt(text, part, |before|);
    }
  }

  /** The e-mail addresses are compared where both have one, the phone numbers only otherwise. */
  ghost predicate LooksLike(user: Person, member: Person) {
    if member.email.Some? && member.email.value != "" && user.email.Some? && user.email.value != "" then
      PartOf(member.email.value, user.email.value)
    else
      && member.phone.Some? && member.phone.value != "" && user.phone.Some? && user.phone.value != ""
      && PartOf(member.phone.value, user.phone.value)
  }

  lemma FoundIff(user: Person, member: Person)
    ensures Found(user, member) <==> LooksLike(user, member)
  {
    if member.email.Some? && user.email.Some? {
      IncludesIff(user.email.value, member.email.value);
    }
    if member.phone.Some? && user.phone.Some? {
      IncludesIff(user.phone.value, member.phone.value);
    }
    hide Includes, PartOf;
  }

  /** A contact is entered in the index exactly when it is the one of an invitee whom no user found looks like. */
  lemma InvitedPlainIff(users: Users, members: seq<Person>, member: Person)
    requires PlainRequest(members) && member in members
    ensures member.Key() in InvitedKeys(users, members) <==>
            forall id | id in SearchUsers(users, members) :: !LooksLike(users[id], member)
  {
    InvitedIff(users, members, member);
    forall user | user in Searched(users, members) ensures Found(user, member) <==> LooksLike(user, member) {
      FoundIff(user, member);
    }
    hide InvitedKeys, Found, LooksLike, SearchUsers, PlainRequest;
    forall id | id in SearchUsers(users, members) && id in users ensures users[id] in Searched(users, members) {
    }
    SearchedAreStored(users, members);
  }

  lemma SearchedAreStored(users: Users, members: seq<Person>)
    ensures forall id | id in SearchUsers(users, members) :: id in users
  {
  }

  /** After a plain request no contact of a stored user is entered: the user has a profile instead. */
  lemma RegisteredIsNotInvited(users: Users, members: seq<Person>, member: Person, id: int)
    requires PlainRequest(members) && member in members && id in users && SharesContact(users[id], member)
    ensures id in SearchUsers(users, members)
    ensures member.Key() !in InvitedKeys(users, members)
  {
    var i :| 0 <= i < |members| && members[i] == member;
    SearchedIff(users, members, id);
    InvitedPlainIff(users, members, member);
    EqualIsPart(users[id], member);
    hide SearchUsers, InvitedKeys, LooksLike, SharesContact;
  }

  lemma EqualIsPart(user: Person, member: Person)
    requires SharesContact(user, member) && Truthy(member.email) != Truthy(member.phone)
    ensures LooksLike(user, member)
  {
    if Truthy(member.email) {
      WholeIsPart(member.email.value);
    } else {
      WholeIsPart(member.phone.value);
    }
    hide PartOf;
  }

  lemma WholeIsPart(text: string)
    ensures PartOf(text, text)
  {
    assert text == "" + text + "";
  }

  /** The places of the request that hold an e-mail address, and those that hold a phone number. */
  function EmailPlaces(members: seq<Person>): set<nat> {
    set i: nat | i < |members| && members[i].email.Some? && members[i].email.value != ""
  }

  function PhonePlaces(members: seq<Person>): set<nat> {
    set i: nat | i < |members| && members[i].phone.Some? && members[i].phone.value != ""
  }

  /** Every address and every number of the request is counted. */
  lemma {:induction false} InvitationsCounted(members: seq<Person>)
    ensures InvitationCount(members) == |EmailPlaces(members)| + |PhonePlaces(members)|
    decreases |members|
  {
    if members == [] {
      assert EmailPlaces(members) == {} && PhonePlaces(members) == {};
    } else {
      InvitationsCounted(members[..|members| - 1]);
      LastPlaces(members);
    }
  }

  lemma LastPlaces(members: seq<Person>)
    requires members != []
    ensures var last := |members| - 1;
            && |EmailPlaces(members)| == |EmailPlaces(members[..last])| + (if Truthy(members[last].email) then 1 else 0)
            && |PhonePlaces(members)| == |PhonePlaces(members[..last])| + (if Truthy(members[last].phone) then 1 else 0)
  {
    var last := |members| - 1;
    assert EmailPlaces(members) == EmailPlaces(members[..last]) + if Truthy(members[last].email) then {last} else {};
    assert PhonePlaces(members) == PhonePlaces(members[..last]) + if Truthy(members[last].phone) then {last} else {};
  }

  /** A person is looked up by the e-mail address, and by the number only without one; an empty text is no contact. */
  lemma KeyIs(person: Person)
    ensures person.email.Some? && person.email.value != "" ==> person.Key() == person.email.value
    ensures !(person.email.Some? && person.email.value != "") ==>
              person.Key() == if person.phone.Some? then person.phone.value else ""
  {
  }

  /** A count changes by the difference for its key only; a key without a count starts at 0. */
  lemma Counts(counts: map<string, int>, uuid: string, delta: int)
    ensures var after := Increment(counts, uuid, delta);
            && after.Keys == counts.Keys + {uuid}
            && (uuid in counts ==> after[uuid] - counts[uuid] == delta) && (uuid !in counts ==> after[uuid] == delta)
            && forall other | other in counts && other != uuid :: after[other] == counts[other]
  {
  }

  /** A changed number is the only thing that changes, and it is what later searches see. */
  lemma PhoneChanges(s: State, userId: int, phone: Option<Contact>)
    requires userId in s.users
    ensures var s' := StateAfter(s, UpdatePhone(userId, phone));
            && s' == s.(users := s'.users) && s'.users.Keys == s.users.Keys
            && s'.users[userId].phone == phone && s'.users[userId].email == s.users[userId].email
            && forall id | id in s.users && id != userId :: s'.users[id] == s.users[id]
  {
  }

  /** What a removal does to its order: one refund more, of the days left, and nothing else. */
  lemma RemoveRefunds(s: State, team: Team, profileId: int, orderId: int, daysLeft: int)
    requires Enabled(s, Remove(team, profileId, orderId, daysLeft)) && s.orders[orderId].unit > 0
    ensures var s', row := RemoveProfile(s, team, profileId, orderId, daysLeft), s.orders[orderId];
            && s'.orders.Keys == s.orders.Keys && s'.index == s.index && s'.profiles == s.profiles - {profileId}
            && (forall o | o in s.orders && o != orderId :: s'.orders[o] == s.orders[o])
            && s'.orders[orderId].unit == row.unit && s'.orders[orderId].amount == row.amount
            && s'.orders[orderId].profileIds == row.profileIds
            && Sum(Payments(row.amount, row.unit, s'.orders[orderId].refunds)) ==
               Sum(Payments(row.amount, row.unit, row.refunds)) - Prorated(row.amount / row.unit, daysLeft)
  {
    RefundSubtracts(s.orders[orderId], daysLeft);
    hide Payments, Sum, Prorated;
  }

  /** What a bulk invitation orders: as many units as invitees, for the profiles made for the users found. */
  lemma InviteOrdered(s: State, team: Team, members: seq<Person>, amount: nat, orderId: int, profileIds: set<int>)
    requires Enabled(s, BulkInvite(team, members, amount, orderId, profileIds))
    ensures var s' := InviteMembers(s, team, members, amount, orderId, profileIds);
            && s'.orders == s.orders[orderId := OrderRow(|members|, amount, profileIds, [])]
            && |profileIds| == |SearchUsers(s.users, members)|
            && (forall id | id in profileIds :: id in s'.profiles && s'.profiles[id] == team)
            && (forall id | id in s.profiles :: id in s'.profiles && s'.profiles[id] == s.profiles[id])
  {
    hide SearchUsers, InviteAll, InvitedList;
  }

  /** Every profile that a sign-up adds is listed by the order of the invitation it completes. */
  lemma {:induction false} JoinsAreListed(
      s: State, user: Person, joined: seq<Team>, ids: seq<int>, teams: set<Team>, i: nat)
    requires Sound(s, teams) && Joinable(s, user, joined, ids, teams) && i < |joined|
    ensures var s' := JoinTeams(s, user, joined, ids);
            && ids[i] in s'.profiles && s'.profiles[ids[i]] == joined[i]
            && OrderOf(s.index, joined[i], user.Key()) in s'.orders
            && ids[i] in s'.orders[OrderOf(s.index, joined[i], user.Key())].profileIds
    decreases |joined|
  {
    hide Sound, Joinable, JoinTeam, FreshProfileId;
    var last := |joined| - 1;
    JoinableFront(s, user, joined, ids, teams);
    JoinsSound(s, user, joined[..last], ids[..last], teams);
    var before := JoinTeams(s, user, joined[..last], ids[..last]);
    JoinIsJoined(before, user, joined[last], ids[last], teams);
    if i < last {
      JoinsAreListed(s, user, joined[..last], ids[..last], teams, i);
      assert ids[i] in ids[..last];
    } else {
      JoinsKeepOrderOf(s, user, joined[..last], ids[..last], teams, joined[last]);
    }
    hide CompleteInvitation, OrderOf;
  }

  /** The order of an invitation is not touched by the joins of other teams. */
  lemma {:induction false} JoinsKeepOrderOf(
      s: State, user: Person, joined: seq<Team>, ids: seq<int>, teams: set<Team>, t: Team)
    requires Sound(s, teams) && Joinable(s, user, joined, ids, teams) && t in teams && t !in joined
    ensures OrderOf(JoinTeams(s, user, joined, ids).index, t, user.Key()) == OrderOf(s.index, t, user.Key())
    decreases |joined|
  {
    if joined == [] {
      return;
    }
    hide Sound, Joinable, JoinTeam, OrderOf;
    var last := |joined| - 1;
    JoinableFront(s, user, joined, ids, teams);
    JoinsSound(s, user, joined[..last], ids[..last], teams);
    JoinsKeepOrderOf(s, user, joined[..last], ids[..last], teams, t);
    var before := JoinTeams(s, user, joined[..last], ids[..last]);
    JoinIsJoined(before, user, joined[last], ids[last], teams);
    SoundUuids(before, teams);
    CompleteKeepsOrderOf(before.index, user, joined[last], t, user.Key());
    hide CompleteInvitation;
  }

  lemma SoundUuids(s: State, teams: set<Team>)
    requires Sound(s, teams)
    ensures UuidsDistinct(teams)
  {
  }

  lemma CompleteKeepsOrderOf(index: Index, user: Person, team: Team, t: Team, contact: Contact)
    requires t.uuid != team.uuid
    ensures OrderOf(CompleteInvitation(index, team, user), t, contact) == OrderOf(index, t, contact)
  {
  }

  // ---------------------------------------------------------------- the units of orders

  /** The invitations that wait for an order's units. */
  function Waiting(index: Index, orderId: int): set<(string, Contact)> {
    set pair | pair in index.teamMembers && pair in index.orders && index.orders[pair] == orderId
  }

  /** Units cover the profiles an order lists and the invitations that wait for it; the gone were refunded. */
  ghost predicate RowOk(order: OrderRow, waiting: nat, live: set<int>) {
    && 0 <= order.amount
    && |order.profileIds| + waiting <= order.unit
    && |order.refunds| + |order.profileIds * live| == |order.profileIds|
    && InMonth(order.refunds)
  }

  ghost predicate OrderOk(s: State, orderId: int)
    requires orderId in s.orders
  {
    RowOk(s.orders[orderId], |Waiting(s.index, orderId)|, s.profiles.Keys)
  }

  ghost predicate OrdersOk(s: State) {
    && (forall orderId | orderId in s.orders :: OrderOk(s, orderId))
    && (forall a, b | a in s.orders && b in s.orders && a != b :: s.orders[a].profileIds !! s.orders[b].profileIds)
  }

  /** The units bought cover the users found and the contacts invited. */
  predicate UnitsCover(users: Users, members: seq<Person>) {
    |SearchUsers(users, members)| + |InvitedKeys(users, members)| <= |members|
  }

  /** Of a plain request among users who share no contact they always do. */
  lemma PlainRequestCovers(users: Users, members: seq<Person>)
    requires PlainRequest(members) && NoSharedContacts(users)
    ensures UnitsCover(users, members)
  {
    AccountsAndOthers(users, members);
    FoundPerInvitee(users, members);
    AllInvitedIff(users, members);
    SubsetCount(InvitedKeys(users, members), UnregisteredKeys(users, members));
    hide PlainRequest, NoSharedContacts, NoneFoundTwice, NoSubstringHit, InvitedKeys, UnregisteredKeys, SearchUsers;
  }

  lemma RemoveRow(order: OrderRow, waiting: nat, live: set<int>, id: int, daysLeft: int)
    requires RowOk(order, waiting, live) && id in live && 0 <= daysLeft <= 30
    ensures RowOk(if id in order.profileIds then order.(refunds := order.refunds + [daysLeft]) else order,
                  waiting, live - {id})
  {
    var remaining := order.profileIds * live;
    assert order.profileIds * (live - {id}) == if id in order.profileIds then remaining - {id} else remaining;
  }

  lemma RemoveOrders(s: State, team: Team, profileId: int, orderId: int, daysLeft: int)
    requires OrdersOk(s) && Enabled(s, Remove(team, profileId, orderId, daysLeft))
    ensures OrdersOk(RemoveProfile(s, team, profileId, orderId, daysLeft))
  {
    var s' := RemoveProfile(s, team, profileId, orderId, daysLeft);
    forall o | o in s'.orders ensures OrderOk(s', o) {
      assert OrderOk(s, o);
      RemoveRow(s.orders[o], |Waiting(s.index, o)|, s.profiles.Keys, profileId, daysLeft);
    }
  }

  /** Fewer invitations waiting, or more profiles that an order does not list, leave it as it was. */
  lemma RowKeptByOthers(order: OrderRow, waiting: nat, waiting': nat, live: set<int>, ids: set<int>)
    requires RowOk(order, waiting, live) && waiting' <= waiting && ids !! order.profileIds
    ensures RowOk(order, waiting', live + ids)
  {
    assert order.profileIds * (live + ids) == order.profileIds * live;
  }

  lemma OldOrders(s: State, s': State, ids: set<int>, o: int)
    requires OrdersOk(s) && o in s.orders && o in s'.orders && s'.orders[o] == s.orders[o]
    requires Waiting(s'.index, o) <= Waiting(s.index, o)
    requires s'.profiles.Keys == s.profiles.Keys + ids
    requires forall id | id in ids :: FreshProfileId(s, id)
    ensures OrderOk(s', o) && s.orders[o].profileIds !! ids
  {
    assert OrderOk(s, o);
    forall id | id in ids ensures id !in s.orders[o].profileIds {
      assert FreshProfileId(s, id);
    }
    SubsetCount(Waiting(s'.index, o), Waiting(s.index, o));
    hide RowOk, Waiting;
    RowKeptByOthers(s.orders[o], |Waiting(s.index, o)|, |Waiting(s'.index, o)|, s.profiles.Keys, ids);
  }

  /** Steps that touch no order keep them, as long as no further invitation waits. */
  lemma UntouchedOrders(s: State, s': State, ids: set<int>)
    requires OrdersOk(s) && s'.orders == s.orders && s'.profiles.Keys == s.profiles.Keys + ids
    requires forall o | o in s.orders :: Waiting(s'.index, o) <= Waiting(s.index, o)
    requires forall id | id in ids :: FreshProfileId(s, id)
    ensures OrdersOk(s')
  {
    hide Waiting, OrderOk, FreshProfileId;
    forall o | o in s'.orders ensures OrderOk(s', o) {
      OldOrders(s, s', ids, o);
    }
  }

  lemma WithdrawWaiting(index: Index, team: Team, contact: Contact, o: int)
    ensures Waiting(Withdraw(index, team, contact), o) <= Waiting(index, o) - {(team.uuid, contact)}
  {
  }

  lemma CompleteWaiting(index: Index, team: Team, user: Person, o: int)
    requires user.Key() in user.Contacts()
    ensures Waiting(CompleteInvitation(index, team, user), o) <= Waiting(index, o) - {(team.uuid, user.Key())}
  {
    if Truthy(user.email) {
      WithdrawWaiting(index, team, user.email.value, o);
      if Truthy(user.phone) {
        WithdrawWaiting(Withdraw(index, team, user.email.value), team, user.phone.value, o);
      }
    } else {
      WithdrawWaiting(index, team, user.phone.value, o);
    }
    hide Waiting, Withdraw;
  }

  /** One unit moves from the waiting to the listed and live. */
  lemma RowGains(order: OrderRow, waiting: nat, waiting': nat, live: set<int>, id: int)
    requires RowOk(order, waiting, live) && waiting' < waiting && id !in order.profileIds
    ensures RowOk(order.(profileIds := order.profileIds + {id}), waiting', live + {id})
  {
    assert (order.profileIds + {id}) * (live + {id}) == (order.profileIds * live) + {id};
  }

  lemma FewerWaiting(all: set<(string, Contact)>, left: set<(string, Contact)>, pair: (string, Contact))
    requires left <= all - {pair}
    ensures |left| <= |all| && (pair in all ==> |left| < |all|)
  {
    SubsetCount(left, all - {pair});
    if pair !in all {
      assert all - {pair} == all;
    }
  }

  lemma JoinOrder(s: State, s': State, user: Person, team: Team, profileId: int, p: int, o: int)
    requires o in s.orders && OrderOk(s, o) && p in s.orders && Joined(s, s', user, team, profileId, p)
    requires user.Key() in user.Contacts() && profileId !in s.orders[o].profileIds
    requires (team.uuid, user.Key()) in Waiting(s.index, p)
    ensures o in s'.orders && OrderOk(s', o)
  {
    hide RowOk, Waiting, CompleteInvitation;
    assert s'.profiles.Keys == s.profiles.Keys + {profileId};
    CompleteWaiting(s.index, team, user, o);
    FewerWaiting(Waiting(s.index, o), Waiting(s'.index, o), (team.uuid, user.Key()));
    if o == p {
      RowGains(s.orders[o], |Waiting(s.index, o)|, |Waiting(s'.index, o)|, s.profiles.Keys, profileId);
    } else {
      RowKeptByOthers(s.orders[o], |Waiting(s.index, o)|, |Waiting(s'.index, o)|, s.profiles.Keys, {profileId});
    }
  }

  lemma JoinListsOnce(orders: map<int, OrderRow>, orders': map<int, OrderRow>, p: int, profileId: int)
    requires p in orders && forall o | o in orders :: profileId !in orders[o].profileIds
    requires orders' == orders[p := orders[p].(profileIds := orders[p].profileIds + {profileId})]
    requires forall a, b | a in orders && b in orders && a != b :: orders[a].profileIds !! orders[b].profileIds
    ensures forall a, b | a in orders' && b in orders' && a != b :: orders'[a].profileIds !! orders'[b].profileIds
  {
  }

  lemma JoinOrders(s: State, s': State, user: Person, team: Team, profileId: int, p: int)
    requires OrdersOk(s) && p in s.orders && Joined(s, s', user, team, profileId, p)
    requires FreshProfileId(s, profileId) && user.Key() in user.Contacts()
    requires (team.uuid, user.Key()) in Waiting(s.index, p)
    ensures OrdersOk(s')
  {
    hide Waiting, RowOk, CompleteInvitation;
    JoinListsOnce(s.orders, s'.orders, p, profileId);
    forall o | o in s'.orders ensures OrderOk(s', o) {
      assert OrderOk(s, o);
      JoinOrder(s, s', user, team, profileId, p, o);
    }
  }

  lemma JoinKeepsOrders(s: State, user: Person, team: Team, profileId: int, teams: set<Team>)
    requires Sound(s, teams) && OrdersOk(s) && team in teams
    requires (user.Key(), team) in s.index.memberTeams && FreshProfileId(s, profileId)
    ensures OrdersOk(JoinTeam(s, user, team, profileId))
  {
    var p := OrderOf(s.index, team, user.Key());
    InvitedHasOrder(s, user, team, teams);
    JoinIsJoined(s, user, team, profileId, teams);
    assert (team.uuid, user.Key()) in Waiting(s.index, p);
    hide Sound, OrdersOk, JoinTeam, Waiting, Joined;
    JoinOrders(s, JoinTeam(s, user, team, profileId), user, team, profileId, p);
  }

  lemma {:induction false} JoinsKeepOrders(
      s: State, user: Person, joined: seq<Team>, ids: seq<int>, teams: set<Team>)
    requires Sound(s, teams) && OrdersOk(s) && Joinable(s, user, joined, ids, teams)
    ensures OrdersOk(JoinTeams(s, user, joined, ids))
    decreases |joined|
  {
    if joined == [] {
      return;
    }
    hide Sound, OrdersOk, JoinTeam, Joinable, FreshProfileId;
    var last := |joined| - 1;
    JoinableFront(s, user, joined, ids, teams);
    JoinsKeepOrders(s, user, joined[..last], ids[..last], teams);
    JoinsSound(s, user, joined[..last], ids[..last], teams);
    JoinKeepsOrders(JoinTeams(s, user, joined[..last], ids[..last]), user, joined[last], ids[last], teams);
  }

  lemma PairsCount(uuid: string, keys: set<Contact>)
    ensures |set key | key in keys :: (uuid, key)| == |keys|
  {
    if keys == {} {
      assert (set key | key in keys :: (uuid, key)) == {};
    } else {
      var key :| key in keys;
      var rest := keys - {key};
      PairsCount(uuid, rest);
      assert (set k | k in keys :: (uuid, k)) == (set k | k in rest :: (uuid, k)) + {(uuid, key)};
    }
  }

  /** Contacts invited anew wait for the new order and no longer for another. */
  lemma InviteWaiting(s: State, team: Team, keys: seq<Contact>, orderId: int, teams: set<Team>)
    requires IndexOk(s, teams) && orderId !in s.orders
    ensures var index := InviteAll(s.index, team, keys, orderId);
            && Waiting(index, orderId) == (set key | key in Elements(keys) :: (team.uuid, key))
            && (forall o | o in s.orders :: Waiting(index, o) <= Waiting(s.index, o))
  {
    InviteAllContents(s.index, team, keys, orderId);
    var index := InviteAll(s.index, team, keys, orderId);
    forall pair: (string, Contact)
      ensures pair in Waiting(index, orderId) <==> pair in (set key | key in Elements(keys) :: (team.uuid, key))
    {
      assert pair == (pair.0, pair.1);
    }
  }

  lemma NewRow(order: OrderRow, waiting: nat, live: set<int>)
    requires order.refunds == [] && 0 <= order.amount && order.profileIds <= live
    requires |order.profileIds| + waiting <= order.unit
    ensures RowOk(order, waiting, live)
  {
    assert order.profileIds * live == order.profileIds;
  }

  lemma AddOrder(s: State, s': State, orderId: int, row: OrderRow)
    requires OrdersOk(s) && orderId !in s.orders && s'.orders == s.orders[orderId := row]
    requires s'.profiles.Keys == s.profiles.Keys + row.profileIds
    requires forall id | id in row.profileIds :: FreshProfileId(s, id)
    requires forall o | o in s.orders :: Waiting(s'.index, o) <= Waiting(s.index, o)
    requires |row.profileIds| + |Waiting(s'.index, orderId)| <= row.unit
    requires row.refunds == [] && 0 <= row.amount
    ensures OrdersOk(s')
  {
    hide Waiting, RowOk, FreshProfileId;
    forall o | o in s.orders ensures OrderOk(s', o) && s.orders[o].profileIds !! row.profileIds {
      OldOrders(s, s', row.profileIds, o);
    }
    NewRow(row, |Waiting(s'.index, orderId)|, s'.profiles.Keys);
    hide OrderOk;
    forall a, b | a in s'.orders && b in s'.orders && a != b
      ensures s'.orders[a].profileIds !! s'.orders[b].profileIds
    {
      assert a != orderId ==> s.orders[a].profileIds !! row.profileIds;
      assert b != orderId ==> s.orders[b].profileIds !! row.profileIds;
    }
  }

  lemma InviteOrders(
      s: State, team: Team, members: seq<Person>, amount: nat, orderId: int, profileIds: set<int>, teams: set<Team>)
    requires Sound(s, teams) && OrdersOk(s)
    requires Enabled(s, BulkInvite(team, members, amount, orderId, profileIds))
    ensures OrdersOk(InviteMembers(s, team, members, amount, orderId, profileIds)) <==> UnitsCover(s.users, members)
  {
    var s' := InviteMembers(s, team, members, amount, orderId, profileIds);
    var row := OrderRow(|members|, amount, profileIds, []);
    InviteWaiting(s, team, InvitedList(s.users, members), orderId, teams);
    PairsCount(team.uuid, InvitedKeys(s.users, members));
    hide Waiting, InvitedList, SearchUsers, InviteAll, Sound, FreshProfileId, Elements;
    if UnitsCover(s.users, members) {
      hide OrdersOk;
      assert s'.profiles.Keys == s.profiles.Keys + profileIds;
      AddOrder(s, s', orderId, row);
    } else {
      assert !OrderOk(s', orderId);
    }
  }

  lemma WithdrawOrders(s: State, team: Team, contact: Contact)
    requires OrdersOk(s)
    ensures OrdersOk(StateAfter(s, WithdrawInvitation(team, contact)))
  {
    var s' := StateAfter(s, WithdrawInvitation(team, contact));
    forall o | o in s.orders ensures Waiting(s'.index, o) <= Waiting(s.index, o) {
      WithdrawWaiting(s.index, team, contact, o);
    }
    hide OrdersOk, Waiting, Withdraw, Increment;
    UntouchedOrders(s, s', {});
  }

  predicate UnitsKept(s: State, step: Step) {
    step.BulkInvite? ==> UnitsCover(s.users, step.members)
  }

  /** A step keeps the units of all orders ahead exactly when it is not an invitation that finds or invites too many. */
  lemma StepKeepsOrdersIff(s: State, step: Step, teams: set<Team>)
    requires Sound(s, teams) && OrdersOk(s) && StepOk(s, step, teams)
    ensures OrdersOk(StateAfter(s, step)) <==> UnitsKept(s, step)
  {
    hide Sound, OrdersOk, Waiting, UnitsCover, InviteMembers, JoinTeams, RemoveProfile, Withdraw, Increment;
    match step
    case CreateTeam(team, profileId) =>
      UntouchedOrders(s, StateAfter(s, step), {profileId});
    case BulkInvite(team, members, amount, orderId, profileIds) =>
      InviteOrders(s, team, members, amount, orderId, profileIds, teams);
    case SignUp(userId, user, joined, ids) =>
      var started := s.(users := s.users[userId := user]);
      SignUpReady(s, userId, user, joined, ids, teams);
      UntouchedOrders(s, started, {});
      JoinsKeepOrders(started, user, joined, ids, teams);
    case UpdatePhone(userId, phone) =>
      UntouchedOrders(s, StateAfter(s, step), {});
    case Remove(team, profileId, orderId, daysLeft) =>
      RemoveOrders(s, team, profileId, orderId, daysLeft);
    case WithdrawInvitation(team, contact) =>
      WithdrawOrders(s, team, contact);
  }

  // ---------------------------------------------------------------- runs

  /** The steps that keep the counts. */
  predicate CountsKept(s: State, step: Step) {
    match step
    case BulkInvite(team, members, _, _, _) => Balanced(s, team, members)
    case SignUp(_, user, joined, _) => forall team | team in joined :: !SecondPending(s.index, user, team)
    case WithdrawInvitation(team, contact) => Pending(s.index, team, contact)
    case _ => true
  }

  /** One step keeps the counts of all teams exactly under these conditions. */
  lemma StepConservesIff(s: State, step: Step, teams: set<Team>)
    requires Sound(s, teams) && AllConserved(s, teams) && StepOk(s, step, teams)
    ensures AllConserved(StateAfter(s, step), teams) <==> CountsKept(s, step)
  {
    hide Sound, AllConserved, Balanced, SecondPending, Pending, InviteMembers, JoinTeams, RemoveProfile, Withdraw;
    match step
    case CreateTeam(team, profileId) => CreateTeamConserves(s, team, profileId, teams);
    case BulkInvite(team, members, amount, orderId, profileIds) =>
      BulkInviteConservesIff(s, team, members, amount, orderId, profileIds, teams);
    case SignUp(userId, user, joined, ids) => SignUpConservesIff(s, userId, user, joined, ids, teams);
    case UpdatePhone(userId, phone) => UpdatePhoneConserves(s, userId, phone, teams);
    case Remove(_, _, _, _) => RemoveConserves(s, step, teams);
    case WithdrawInvitation(team, contact) => WithdrawalConservesIff(s, team, contact, teams);
  }

  lemma UpdatePhoneConserves(s: State, userId: int, phone: Option<Contact>, teams: set<Team>)
    requires AllConserved(s, teams) && Enabled(s, UpdatePhone(userId, phone))
    ensures AllConserved(StateAfter(s, UpdatePhone(userId, phone)), teams)
  {
    var s' := StateAfter(s, UpdatePhone(userId, phone));
    forall t | t in teams ensures Conserved(s', t) {
      assert Conserved(s, t) && Members(s', t) == Members(s, t);
    }
  }

  /** A run from the empty stores. */
  ghost predicate Run(states: seq<State>, steps: seq<Step>, teams: set<Team>) {
    && |states| == |steps| + 1 && states[0] == EMPTY_STATE
    && forall i | 0 <= i < |steps| :: StepOk(states[i], steps[i], teams)
        && states[i + 1] == StateAfter(states[i], steps[i])
  }

  lemma {:induction false} RunsSound(states: seq<State>, steps: seq<Step>, teams: set<Team>, n: nat)
    requires UuidsDistinct(teams) && Run(states, steps, teams) && n < |states|
    ensures Sound(states[n], teams)
  {
    if n > 0 {
      RunsSound(states, steps, teams, n - 1);
      StepSound(states[n - 1], steps[n - 1], teams);
    }
    hide StepOk, StateAfter;
  }

  lemma {:induction false} RunsConserve(states: seq<State>, steps: seq<Step>, teams: set<Team>, n: nat)
    requires UuidsDistinct(teams) && Run(states, steps, teams) && n < |states|
    requires forall i | 0 <= i < n :: CountsKept(states[i], steps[i])
    ensures AllConserved(states[n], teams)
  {
    if n > 0 {
      RunsConserve(states, steps, teams, n - 1);
      RunsSound(states, steps, teams, n - 1);
      hide StepOk, StateAfter, CountsKept, Sound, AllConserved, UuidsDistinct;
      StepConservesIff(states[n - 1], steps[n - 1], teams);
    }
  }

  /**
   In every run, whatever users sign up and whoever is invited: the member count of every team is its profiles plus
   its pending invitations all along, exactly when every step meets its condition.
   */
  lemma MemberCountConservedIff(states: seq<State>, steps: seq<Step>, teams: set<Team>)
    requires UuidsDistinct(teams) && Run(states, steps, teams)
    ensures (forall n | 0 <= n < |states| :: AllConserved(states[n], teams)) <==>
            (forall i | 0 <= i < |steps| :: CountsKept(states[i], steps[i]))
  {
    hide StepOk, StateAfter, CountsKept, Sound, AllConserved, UuidsDistinct;
    if forall i | 0 <= i < |steps| :: CountsKept(states[i], steps[i]) {
      forall n | 0 <= n < |states| ensures AllConserved(states[n], teams) {
        RunsConserve(states, steps, teams, n);
      }
    }
    if forall n | 0 <= n < |states| :: AllConserved(states[n], teams) {
      forall i | 0 <= i < |steps| ensures CountsKept(states[i], steps[i]) {
        RunsSound(states, steps, teams, i);
        assert AllConserved(states[i], teams) && AllConserved(states[i + 1], teams);
        StepConservesIff(states[i], steps[i], teams);
      }
    }
  }

  /** So the count of a team is right after any run of such steps. */
  lemma MemberCountConserved(states: seq<State>, steps: seq<Step>, teams: set<Team>, n: nat, team: Team)
    requires UuidsDistinct(teams) && Run(states, steps, teams) && n < |states|
    requires forall i | 0 <= i < n :: CountsKept(states[i], steps[i])
    requires team in teams && team.uuid in states[n].memberCount
    ensures states[n].memberCount[team.uuid] == |Members(states[n], team)| + |PendingContacts(states[n].index, team)|
  {
    hide Run, CountsKept;
    RunsConserve(states, steps, teams, n);
    assert Conserved(states[n], team);
  }

  lemma {:induction false} RunsKeepOrders(states: seq<State>, steps: seq<Step>, teams: set<Team>, n: nat)
    requires UuidsDistinct(teams) && Run(states, steps, teams) && n < |states|
    requires forall i | 0 <= i < n :: UnitsKept(states[i], steps[i])
    ensures OrdersOk(states[n])
  {
    if n > 0 {
      RunsKeepOrders(states, steps, teams, n - 1);
      RunsSound(states, steps, teams, n - 1);
      hide StepOk, StateAfter, UnitsKept, Sound, OrdersOk, UuidsDistinct;
      StepKeepsOrdersIff(states[n - 1], steps[n - 1], teams);
    }
  }

  /** All along a run the units of every order are ahead exactly when they cover every bulk invitation. */
  lemma RunsKeepOrdersIff(states: seq<State>, steps: seq<Step>, teams: set<Team>)
    requires UuidsDistinct(teams) && Run(states, steps, teams)
    ensures (forall n | 0 <= n < |states| :: OrdersOk(states[n])) <==>
            (forall i | 0 <= i < |steps| :: UnitsKept(states[i], steps[i]))
  {
    hide StepOk, StateAfter, UnitsKept, Sound, OrdersOk, UuidsDistinct;
    if forall i | 0 <= i < |steps| :: UnitsKept(states[i], steps[i]) {
      forall n | 0 <= n < |states| ensures OrdersOk(states[n]) {
        RunsKeepOrders(states, steps, teams, n);
      }
    }
    if forall n | 0 <= n < |states| :: OrdersOk(states[n]) {
      forall i | 0 <= i < |steps| ensures UnitsKept(states[i], steps[i]) {
        RunsSound(states, steps, teams, i);
        assert OrdersOk(states[i]) && OrdersOk(states[i + 1]);
        StepKeepsOrdersIff(states[i], steps[i], teams);
      }
    }
  }

  /**
   While every order's units cover its request, no order has more refunds than profiles or more profiles than units,
   and none whose refund fits its unit price is ever refunded below zero.
   */
  lemma OrdersNeverOverRefunded(states: seq<State>, steps: seq<Step>, teams: set<Team>, n: nat, orderId: int)
    requires UuidsDistinct(teams) && Run(states, steps, teams) && n < |states|
    requires forall i | 0 <= i < n :: UnitsKept(states[i], steps[i])
    requires orderId in states[n].orders
    ensures var order := states[n].orders[orderId];
            && |order.refunds| <= |order.profileIds| <= order.unit
            && (order.unit > 0 && RefundFitsPrice(UnitPrice(order.amount, order.unit)) ==>
                  Sum(Payments(order.amount, order.unit, order.refunds)) >= 0)
  {
    hide Run, UnitsKept;
    RunsKeepOrders(states, steps, teams, n);
    assert OrderOk(states[n], orderId);
    var order := states[n].orders[orderId];
    if order.unit > 0 {
      NeverOverRefundedIff(order.amount, order.unit);
    }
  }
}
