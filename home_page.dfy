/** The home page: the reconciler that turns the fetched outgoing friend
    requests into the set of users already asked, the "Add Friend" button
    that set gates, and the loading / empty / list choice of each section. */
module HomePage {
  import opened Common

  type UserId = string

  /** The `recipient` of an outgoing request; its `_id` may be missing. */
  datatype Recipient = Recipient(id: Option<string>)

  /** One element of the fetched list; its `recipient` may be missing. */
  datatype OutgoingRequest = OutgoingRequest(recipient: Option<Recipient>)

  /** `outgoingFriendReqs` as the query hands it over: anything that is not an
      array (undefined while loading, an error body), or an array whose
      elements may themselves be null. */
  datatype Fetched = NotAnArray | Array(items: seq<Option<OutgoingRequest>>)

  /** The optional chain `req?.recipient?._id`: None as soon as a link is missing. */
  function RecipientIdOf(req: Option<OutgoingRequest>): (r: Option<string>)
    ensures req.None? || req.value.recipient.None? ==> r.None?
    ensures req.Some? && req.value.recipient.Some? ==> r == req.value.recipient.value.id
  {
    match req
    case None => None
    case Some(r) =>
      match r.recipient
      case None => None
      case Some(rc) => rc.id
  }

  /** An entry is well formed when its recipient id is present and truthy. */
  predicate WellFormed(req: Option<OutgoingRequest>)
    ensures WellFormed(req) <==>
              req.Some? && req.value.recipient.Some? &&
              req.value.recipient.value.id.Some? && req.value.recipient.value.id.value != ""
  {
    RecipientIdOf(req).Some? && Truthy(RecipientIdOf(req).value)
  }

  /** The set of users already asked: the recipient ids of the well-formed
      entries of the list, and nothing else. */
  function SentIds(reqs: seq<Option<OutgoingRequest>>): set<UserId>
  {
    set i | 0 <= i < |reqs| && WellFormed(reqs[i]) :: RecipientIdOf(reqs[i]).value
  }

  lemma SentIdsSnoc(reqs: seq<Option<OutgoingRequest>>, req: Option<OutgoingRequest>)
    ensures SentIds(reqs + [req])
         == SentIds(reqs) + (if WellFormed(req) then {RecipientIdOf(req).value} else {})
  {
    var all := reqs + [req];
    forall x | x in SentIds(all)
      ensures x in SentIds(reqs) + (if WellFormed(req) then {RecipientIdOf(req).value} else {})
    {
      var i :| 0 <= i < |all| && WellFormed(all[i]) && RecipientIdOf(all[i]).value == x;
      if i < |reqs| {
        assert all[i] == reqs[i];
      }
    }
    forall x | x in SentIds(reqs) ensures x in SentIds(all) {
      var i :| 0 <= i < |reqs| && WellFormed(reqs[i]) && RecipientIdOf(reqs[i]).value == x;
      assert all[i] == reqs[i];
    }
    if WellFormed(req) {
      assert all[|reqs|] == req;
    }
  }

  /** The loop of the reconciling effect: a fresh set, filled by walking the
      list and adding the recipient id of every well-formed entry; a
      malformed entry is passed over (the source logs it) and the walk goes on. */
  method CollectOutgoingIds(reqs: seq<Option<OutgoingRequest>>) returns (ids: set<UserId>)
    ensures ids == SentIds(reqs)
  {
    ids := {};
    var i := 0;
    while i < |reqs|
      invariant 0 <= i <= |reqs|
      invariant ids == SentIds(reqs[..i])
    {
      var req := reqs[i];
      var id := RecipientIdOf(req);
      if id.Some? && Truthy(id.value) {
        ids := ids + {id.value};
      }
      assert reqs[..i + 1] == reqs[..i] + [req];
      SentIdsSnoc(reqs[..i], req);
      i := i + 1;
    }
    assert reqs[..i] == reqs;
  }

  /** A user is in the set exactly when some well-formed entry names them. */
  lemma SentIdsMembership(reqs: seq<Option<OutgoingRequest>>, x: UserId)
    ensures x in SentIds(reqs)
        <==> exists i :: 0 <= i < |reqs| && RecipientIdOf(reqs[i]) == Some(x) && Truthy(x)
  {
  }

  /** An empty list, or one whose every entry is malformed, yields the empty set. */
  lemma NoWellFormedEntryNoIds(reqs: seq<Option<OutgoingRequest>>)
    requires forall i :: 0 <= i < |reqs| ==> !WellFormed(reqs[i])
    ensures SentIds(reqs) == {}
  {
  }

  lemma {:induction false} SentIdsConcat(a: seq<Option<OutgoingRequest>>, b: seq<Option<OutgoingRequest>>)
    ensures SentIds(a + b) == SentIds(a) + SentIds(b)
    decreases |b|
  {
    if b == [] {
      assert a + b == a;
    } else {
      var b' := b[..|b| - 1];
      var last := b[|b| - 1];
      assert b == b' + [last];
      assert a + b == (a + b') + [last];
      SentIdsConcat(a, b');
      SentIdsSnoc(a + b', last);
      SentIdsSnoc(b', last);
    }
  }

  /** A malformed entry anywhere in the list contributes nothing. */
  lemma MalformedEntryIgnored(a: seq<Option<OutgoingRequest>>, req: Option<OutgoingRequest>,
                              b: seq<Option<OutgoingRequest>>)
    requires !WellFormed(req)
    ensures SentIds(a + [req] + b) == SentIds(a + b)
  {
    SentIdsConcat(a + [req], b);
    SentIdsConcat(a, b);
    SentIdsSnoc(a, req);
  }

  /** Repeating an entry already in the list changes nothing: duplicates collapse. */
  lemma DuplicateEntryCollapses(reqs: seq<Option<OutgoingRequest>>, i: nat)
    requires i < |reqs|
    ensures SentIds(reqs + [reqs[i]]) == SentIds(reqs)
  {
    SentIdsSnoc(reqs, reqs[i]);
  }

  /** The order of the list does not matter: any rearrangement gives the same set. */
  lemma SentIdsOrderFree(a: seq<Option<OutgoingRequest>>, b: seq<Option<OutgoingRequest>>)
    requires multiset(a) == multiset(b)
    ensures SentIds(a) == SentIds(b)
  {
    forall x | x in SentIds(a) ensures x in SentIds(b) {
      var i :| 0 <= i < |a| && WellFormed(a[i]) && RecipientIdOf(a[i]).value == x;
      assert a[i] in multiset(b);
      var j :| 0 <= j < |b| && b[j] == a[i];
    }
    forall x | x in SentIds(b) ensures x in SentIds(a) {
      var j :| 0 <= j < |b| && WellFormed(b[j]) && RecipientIdOf(b[j]).value == x;
      assert b[j] in multiset(a);
      var i :| 0 <= i < |a| && a[i] == b[j];
    }
  }

  /** The two labels of a recommended user's button. */
  datatype Label = RequestSent | AddFriend

  datatype FriendButton = FriendButton(disabled: bool, caption: Label)

  /** The button of a recommended user, from membership in the set of users
      already asked and the single global "a send is pending" flag. */
  function FriendButtonFor(sentIds: set<UserId>, isPending: bool, user: UserId): (b: FriendButton)
    ensures b.disabled <==> user in sentIds || isPending
    ensures b.caption == RequestSent <==> user in sentIds
  {
    var hasRequestBeenSent := user in sentIds;
    FriendButton(hasRequestBeenSent || isPending, if hasRequestBeenSent then RequestSent else AddFriend)
  }

  /** A click on that button: it asks to send a request to that user when the
      button is enabled, and does nothing when it is disabled. */
  function Click(sentIds: set<UserId>, isPending: bool, user: UserId): (send: Option<UserId>)
    ensures send.Some? <==> !FriendButtonFor(sentIds, isPending, user).disabled
    ensures send.Some? ==> send.value == user
  {
    if FriendButtonFor(sentIds, isPending, user).disabled then None else Some(user)
  }

  /** Once the refreshed list names a user as recipient, that user's button
      reads "Request Sent", is disabled, and clicking it sends nothing. */
  lemma RequestedUserBlocked(reqs: seq<Option<OutgoingRequest>>, i: nat, isPending: bool)
    requires i < |reqs| && WellFormed(reqs[i])
    ensures FriendButtonFor(SentIds(reqs), isPending, RecipientIdOf(reqs[i]).value)
         == FriendButton(true, RequestSent)
    ensures Click(SentIds(reqs), isPending, RecipientIdOf(reqs[i]).value) == None
  {
  }

  /** A user no well-formed entry names reads "Add Friend", and with no send
      pending a click sends a request to exactly that user. */
  lemma UnrequestedUserOpen(reqs: seq<Option<OutgoingRequest>>, user: UserId, isPending: bool)
    requires forall i :: 0 <= i < |reqs| ==> RecipientIdOf(reqs[i]) != Some(user)
    ensures FriendButtonFor(SentIds(reqs), isPending, user).caption == AddFriend
    ensures Click(SentIds(reqs), isPending, user) == if isPending then None else Some(user)
  {
  }

  /** What a section of the page shows. */
  datatype Section<C> = Spinner | Placeholder | Cards(cards: seq<C>)

  /** A section: a spinner while its query loads, the placeholder when its list
      has no element, and otherwise one card per element, in order. Here
      `data` None stands for `undefined` only: the destructuring default
      `data = []` turns it into the empty list. */
  function RenderSection<T, C>(isLoading: bool, data: Option<seq<T>>, card: T -> C): (s: Section<C>)
    ensures isLoading ==> s == Spinner
    ensures !isLoading && (data.None? || |data.value| == 0) ==> s == Placeholder
    ensures !isLoading && data.Some? && |data.value| > 0 ==>
              s.Cards? && |s.cards| == |data.value| &&
              forall i :: 0 <= i < |s.cards| ==> s.cards[i] == card(data.value[i])
  {
    var items := if data.Some? then data.value else [];
    if isLoading then Spinner
    else if |items| == 0 then Placeholder
    else Cards(seq(|items|, i requires 0 <= i < |items| => card(items[i])))
  }

  /** A recommended user, as far as the button logic needs one. */
  datatype RecommendedUser = RecommendedUser(id: UserId, fullName: string)

  datatype UserCard = UserCard(user: RecommendedUser, button: FriendButton)

  /** The "Meet New Friends" section: each card's button follows its own user's
      membership in the set and the global pending flag. */
  function Recommendations(isLoading: bool, data: Option<seq<RecommendedUser>>,
                           sentIds: set<UserId>, isPending: bool): (s: Section<UserCard>)
    ensures isLoading ==> s == Spinner
    ensures !isLoading && (data.None? || |data.value| == 0) ==> s == Placeholder
    ensures !isLoading && data.Some? && |data.value| > 0 ==>
              s.Cards? && |s.cards| == |data.value| &&
              forall i :: 0 <= i < |s.cards| ==>
                s.cards[i].user == data.value[i] &&
                (s.cards[i].button.disabled <==> data.value[i].id in sentIds || isPending) &&
                (s.cards[i].button.caption == RequestSent <==> data.value[i].id in sentIds)
  {
    RenderSection(isLoading, data, (u: RecommendedUser) => UserCard(u, FriendButtonFor(sentIds, isPending, u.id)))
  }

  /** The state the home page keeps between renders: the reconciled set
      (`outgoingRequestsIds`), the send mutation's pending flag, and the
      cache keys it has asked to invalidate, in order. */
  class HomeView {
    var outgoingRequestsIds: set<UserId>
    var isPending: bool
    var invalidated: seq<QueryKey>

    /** The set starts empty; nothing is pending or invalidated yet. */
    constructor ()
      ensures outgoingRequestsIds == {} && !isPending && invalidated == []
    {
      outgoingRequestsIds := {};
      isPending := false;
      invalidated := [];
    }

    /** The effect run whenever `outgoingFriendReqs` changes: for an array the
        freshly built set replaces the old one wholesale; for anything else
        the old set is kept. */
    method Reconcile(data: Fetched)
      modifies this`outgoingRequestsIds
      ensures data.Array? ==> outgoingRequestsIds == SentIds(data.items)
      ensures data.NotAnArray? ==> outgoingRequestsIds == old(outgoingRequestsIds)
    {
      if data.Array? {
        var outgoingIds := CollectOutgoingIds(data.items);
        outgoingRequestsIds := outgoingIds;
      }
    }

    /** A click on a recommended user's button: when the button is enabled it
        starts the send mutation with that user's id, which is then pending. */
    method ClickAddFriend(user: UserId) returns (send: Option<UserId>)
      modifies this`isPending
      ensures send == Click(outgoingRequestsIds, old(isPending), user)
      ensures isPending == (old(isPending) || send.Some?)
    {
      send := Click(outgoingRequestsIds, isPending, user);
      if send.Some? {
        isPending := true;
      }
    }

    /** The send mutation settles: nothing is pending any more, and on success
        exactly the `outgoingFriendReqs` key is invalidated; a failure
        invalidates nothing and leaves the set as it was. */
    method SendSettled(succeeded: bool)
      modifies this`isPending, this`invalidated
      ensures !isPending
      ensures invalidated == old(invalidated) + (if succeeded then [OutgoingFriendReqs] else [])
    {
      isPending := false;
      if succeeded {
        invalidated := invalidated + [OutgoingFriendReqs];
      }
    }
  }
}
