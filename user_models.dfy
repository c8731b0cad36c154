/** The user tables (backend/users/models.py): accounts with unique e-mail and
    username, and subscriptions with their unique and no-self constraints. */
module UserModels {
  import opened Common

  /** The fields of `CustomUser` the modelled views read or change; the
      password is the stored credential, its hashing left abstract. */
  datatype Account = Account(email: string, username: string, password: string)

  /** A `Subscription` row: `user` follows `author`. */
  datatype Subscription = Subscription(user: UserId, author: UserId)

  /** The `max_length` of `username`. */
  const MaxUsernameLength: nat := 150

  /** `email` and `username` are `unique=True`; `username` has at most 150
      characters. */
  predicate AccountsValid(accounts: map<UserId, Account>) {
    (forall u, v :: u in accounts && v in accounts && u != v ==>
       accounts[u].email != accounts[v].email && accounts[u].username != accounts[v].username)
    && (forall u :: u in accounts ==> |accounts[u].username| <= MaxUsernameLength)
  }

  /** `unique_subscription`. */
  predicate UniqueSubscriptions(subs: seq<Subscription>) {
    NoDuplicates(subs)
  }

  /** `prevent_self_subscription`: `user != author`. */
  predicate NoSelfSubscription(subs: seq<Subscription>) {
    forall s :: s in subs ==> s.user != s.author
  }

  /** The separator of `Subscription.__str__`. */
  const FollowsWord: string := " подписан на "

  /** `Subscription.__str__`: each user renders as `str(user)`, the login
      field, which is the e-mail. */
  function SubscriptionStr(userEmail: string, authorEmail: string): (s: string)
    ensures ' ' !in userEmail ==> IndexOf(s, ' ') == Some(|userEmail|)
  {
    var s := userEmail + FollowsWord + authorEmail;
    assert s[|userEmail|] == ' ';
    assert forall j :: 0 <= j < |userEmail| ==> s[j] == userEmail[j];
    s
  }

  /** For e-mails without spaces the rendering is unambiguous: both e-mails
      can be read back from it. */
  lemma SubscriptionStrInjective(u1: string, a1: string, u2: string, a2: string)
    requires ' ' !in u1 && ' ' !in u2
    requires SubscriptionStr(u1, a1) == SubscriptionStr(u2, a2)
    ensures u1 == u2 && a1 == a2
  {
    var s := SubscriptionStr(u1, a1);
    assert |u1| == |u2|;
    assert u1 == s[..|u1|];
    assert u2 == s[..|u2|];
    assert a1 == s[|u1| + |FollowsWord|..];
    assert a2 == s[|u2| + |FollowsWord|..];
  }
}
