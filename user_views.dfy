/** The user view handlers that change state (backend/users/views.py):
    subscribing to and unsubscribing from an author, listing one's
    subscriptions and changing one's password. The requester of these
    actions is authenticated (`IsAuthenticated`), so it is a user id. */
module UserViews {
  import opened Common
  import opened UserModels

  /** The subscriptions of `user`: `Subscription.objects.filter(user=user)`,
      in table order. */
  function SubscriptionsOf(subs: seq<Subscription>, user: UserId): (r: seq<Subscription>)
    ensures |r| <= |subs|
    ensures forall s :: s in r <==> s in subs && s.user == user
  {
    if subs == [] then []
    else if subs[0].user == user then [subs[0]] + SubscriptionsOf(subs[1..], user)
    else SubscriptionsOf(subs[1..], user)
  }

  /** The accounts and the subscription table. */
  class UserStore {
    var accounts: map<UserId, Account>
    var subscriptions: seq<Subscription>

    /** The database constraints, and subscriptions refer to existing users. */
    ghost predicate Valid()
      reads this
    {
      AccountsValid(accounts)
      && UniqueSubscriptions(subscriptions)
      && NoSelfSubscription(subscriptions)
      && (forall s :: s in subscriptions ==> s.user in accounts && s.author in accounts)
    }

    constructor (accounts: map<UserId, Account>)
      requires AccountsValid(accounts)
      ensures Valid() && this.accounts == accounts && subscriptions == []
    {
      this.accounts := accounts;
      subscriptions := [];
    }

    /** `Subscription.objects.filter(user=user, author=author).exists()`. */
    function IsSubscribed(user: UserId, author: UserId): (b: bool)
      reads this
      ensures b <==> Subscription(user, author) in ToSet(subscriptions)
    {
      Subscription(user, author) in subscriptions
    }

    /** `UserViewSet.subscribe`: 404 for an unknown author; POST refuses a
        subscription to oneself and a repeated one (400), else adds it (201);
        DELETE refuses when there is nothing to remove (400), else removes it
        (204). Accounts never change. */
    method Subscribe(m: HttpMethod, user: UserId, pk: UserId) returns (status: Status)
      requires Valid() && user in accounts && (m == Post || m == Delete)
      modifies this
      ensures Valid() && accounts == old(accounts)
      ensures pk !in accounts ==> status == NotFound404 && subscriptions == old(subscriptions)
      ensures pk in accounts && m == Post ==>
        if pk == user || Subscription(user, pk) in old(subscriptions)
        then status == BadRequest400 && subscriptions == old(subscriptions)
        else status == Created201 && subscriptions == old(subscriptions) + [Subscription(user, pk)]
      ensures pk in accounts && m == Delete ==>
        if Subscription(user, pk) in old(subscriptions)
        then status == NoContent204
             && subscriptions == Without(old(subscriptions), Subscription(user, pk))
        else status == BadRequest400 && subscriptions == old(subscriptions)
    {
      if pk !in accounts {
        return NotFound404;
      }
      if m == Post {
        if pk == user {
          return BadRequest400;
        }
        if IsSubscribed(user, pk) {
          return BadRequest400;
        }
        subscriptions := subscriptions + [Subscription(user, pk)];
        return Created201;
      }
      if !IsSubscribed(user, pk) {
        return BadRequest400;
      }
      WithoutNoDuplicates(subscriptions, Subscription(user, pk));
      subscriptions := Without(subscriptions, Subscription(user, pk));
      return NoContent204;
    }

    /** `UserViewSet.subscriptions`: the requester's own subscriptions. */
    method Subscriptions(user: UserId) returns (r: seq<Subscription>)
      ensures r == SubscriptionsOf(subscriptions, user)
      ensures forall i :: 0 <= i < |r| ==> r[i].user == user && r[i] in subscriptions
    {
      r := SubscriptionsOf(subscriptions, user);
      assert forall i :: 0 <= i < |r| ==> r[i] in r;
    }

    /** `UserViewSet.set_password`: a wrong current password is refused (400)
        and nothing changes; otherwise the new password is stored (204) and
        nothing else changes. */
    method SetPassword(user: UserId, current: string, newPassword: string) returns (status: Status)
      requires Valid() && user in accounts
      modifies this
      ensures Valid() && subscriptions == old(subscriptions)
      ensures old(accounts)[user].password != current ==>
                status == BadRequest400 && accounts == old(accounts)
      ensures old(accounts)[user].password == current ==>
                status == NoContent204
                && accounts == old(accounts)[user := old(accounts)[user].(password := newPassword)]
    {
      if accounts[user].password != current {
        return BadRequest400;
      }
      accounts := accounts[user := accounts[user].(password := newPassword)];
      return NoContent204;
    }
  }

  /** A successful subscribe shows up in the subscriber's list and in no one
      else's. */
  lemma SubscribeListed(subs: seq<Subscription>, user: UserId, author: UserId, other: UserId)
    requires other != user
    ensures Subscription(user, author) in SubscriptionsOf(subs + [Subscription(user, author)], user)
    ensures SubscriptionsOf(subs + [Subscription(user, author)], other) == SubscriptionsOf(subs, other)
  {
    SubscriptionsOfAppend(subs, [Subscription(user, author)], other);
  }

  lemma {:induction false} SubscriptionsOfAppend(a: seq<Subscription>, b: seq<Subscription>,
                                                 user: UserId)
    ensures SubscriptionsOf(a + b, user) == SubscriptionsOf(a, user) + SubscriptionsOf(b, user)
  {
    if a == [] {
      assert a + b == b;
    } else {
      assert (a + b)[1..] == a[1..] + b;
      SubscriptionsOfAppend(a[1..], b, user);
    }
  }

  /** Unsubscribing leaves no trace of the pair, and other users' lists keep
      their members. */
  lemma UnsubscribeRemoves(subs: seq<Subscription>, user: UserId, author: UserId, other: UserId)
    requires other != user
    ensures Subscription(user, author) !in SubscriptionsOf(Without(subs, Subscription(user, author)), user)
    ensures forall s :: s in SubscriptionsOf(Without(subs, Subscription(user, author)), other)
                        <==> s in SubscriptionsOf(subs, other)
  {
  }
}
