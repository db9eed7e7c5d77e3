/** The keys of sessions: refresh tokens and the revocation epochs share one prefix, and so one key space. */
module SessionKeys {
  import opened Common
  import opened Redis

  const EPOCH_OF_ALL := "epoch:global"
  const EPOCH_OF_USER := "epoch:user:"

  function TokenKey(token: Id): string { "refresh:" + token }

  const GLOBAL_EPOCH_KEY := TokenKey(EPOCH_OF_ALL)

  function UserEpochKey(user: Id): string { TokenKey(EPOCH_OF_USER + user) }

  /** A presented token that spells the rest of an epoch's key. A caller can look at it; drawn tokens never do. */
  predicate NamesEpoch(token: Id)
  {
    token == EPOCH_OF_ALL || EPOCH_OF_USER <= token
  }

  ghost predicate IsEpochKey(key: string)
  {
    key == GLOBAL_EPOCH_KEY || exists user :: key == UserEpochKey(user)
  }

  lemma {:induction false} SameToken(t: Id, u: Id)
    ensures TokenKey(t) == TokenKey(u) <==> t == u
  {
    PrefixedKeys("refresh:", t, u);
  }

  /** These tokens, and no others, have an epoch's key for their own. */
  lemma {:induction false} NamesEpochMeans(token: Id)
    ensures NamesEpoch(token) <==> IsEpochKey(TokenKey(token))
  {
    SameToken(token, EPOCH_OF_ALL);
    if EPOCH_OF_USER <= token {
      var user := token[|EPOCH_OF_USER|..];
      assert token == EPOCH_OF_USER + user;
      assert TokenKey(token) == UserEpochKey(user);
    }
    forall user | TokenKey(token) == UserEpochKey(user) ensures EPOCH_OF_USER <= token {
      SameToken(token, EPOCH_OF_USER + user);
    }
  }

  lemma {:induction false} SameUserEpoch(u: Id, v: Id)
    ensures UserEpochKey(u) == UserEpochKey(v) <==> u == v
    ensures UserEpochKey(u) != GLOBAL_EPOCH_KEY
  {
    SameToken(EPOCH_OF_USER + u, EPOCH_OF_USER + v);
    PrefixedKeys(EPOCH_OF_USER, u, v);
    SameToken(EPOCH_OF_USER + u, EPOCH_OF_ALL);
    assert (EPOCH_OF_USER + u)[6] == 'u' && EPOCH_OF_ALL[6] == 'g';
  }
}
