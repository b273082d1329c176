/**
  Users, tokens and their quotas: the global slices of `model/user.go` and
  `model/token.go`, scanned and changed in place under their locks.
 */
module Accounts {

  datatype User = User(name: string, role: string, status: int, quota: int, used: int)

  datatype Token = Token(key: string, owner: string, status: int, unlimited: int, quota: int, used: int)

  datatype Lookup<T> = Found(value: T) | Missing

  datatype Outcome = Used | Invalid | Exceeded

  // ----- What the scans find: the first record of that name or key.

  function FirstUser(users: seq<User>, name: string): (i: nat)
    ensures i <= |users|
    ensures forall j :: 0 <= j < i ==> users[j].name != name
    ensures i < |users| ==> users[i].name == name
  {
    if users == [] || users[0].name == name then 0 else 1 + FirstUser(users[1..], name)
  }

  function FirstToken(tokens: seq<Token>, key: string): (i: nat)
    ensures i <= |tokens|
    ensures forall j :: 0 <= j < i ==> tokens[j].key != key
    ensures i < |tokens| ==> tokens[i].key == key
  {
    if tokens == [] || tokens[0].key == key then 0 else 1 + FirstToken(tokens[1..], key)
  }

  // Charging changes neither names nor keys.

  lemma SameFirst(users: seq<User>, more: seq<User>, name: string)
    requires |users| == |more| && forall i :: 0 <= i < |users| ==> users[i].name == more[i].name
    ensures FirstUser(users, name) == FirstUser(more, name)
  {
  }

  lemma SameFirstToken(tokens: seq<Token>, more: seq<Token>, key: string)
    requires |tokens| == |more| && forall i :: 0 <= i < |tokens| ==> tokens[i].key == more[i].key
    ensures FirstToken(tokens, key) == FirstToken(more, key)
  {
  }

  predicate Exists(users: seq<User>, name: string) {
    FirstUser(users, name) < |users|
  }

  function GetUser(users: seq<User>, name: string): Lookup<User> {
    if Exists(users, name) then Found(users[FirstUser(users, name)]) else Missing
  }

  predicate IsRoot(users: seq<User>, name: string) {
    Exists(users, name) && users[FirstUser(users, name)].role == "root"
  }

  /** A quota of -1 is a number like any other here. */
  function AddQuota(users: seq<User>, name: string, n: int): seq<User> {
    var i := FirstUser(users, name);
    if i < |users| then users[i := users[i].(quota := users[i].quota + n)] else users
  }

  function AddUsed(users: seq<User>, name: string, n: int): seq<User> {
    var i := FirstUser(users, name);
    if name != "" && i < |users| then users[i := users[i].(used := users[i].used + n)] else users
  }

  /** Whether a metered account has something left; a negative quota is unmetered. */
  predicate Remains(quota: int, used: int) {
    quota < 0 || used < quota
  }

  /** Names nobody has, and the empty name, are let through. */
  predicate QuotaAllowed(users: seq<User>, name: string) {
    var i := FirstUser(users, name);
    name == "" || i == |users| || (users[i].status == 1 && Remains(users[i].quota, users[i].used))
  }

  predicate TokenRemains(t: Token) {
    t.unlimited != 0 || Remains(t.quota, t.used)
  }

  function UseOutcome(tokens: seq<Token>, key: string): Outcome {
    var i := FirstToken(tokens, key);
    if i == |tokens| || tokens[i].status != 1 then Invalid
    else if tokens[i].unlimited == 0 && !Remains(tokens[i].quota, tokens[i].used) then Exceeded
    else Used
  }

  function UseTokens(tokens: seq<Token>, key: string, cost: int): seq<Token> {
    if UseOutcome(tokens, key).Used? then
      var i := FirstToken(tokens, key);
      tokens[i := tokens[i].(used := tokens[i].used + cost)]
    else tokens
  }

  // ----- The slices and their methods.

  class Users {
    var users: seq<User>

    constructor (initial: seq<User>)
      ensures users == initial
    {
      users := initial;
    }

    method AddUserQuota(name: string, n: int)
      modifies this
      ensures users == AddQuota(old(users), name, n)
      ensures |users| == |old(users)|
      ensures forall i :: 0 <= i < |users| ==>
                users[i] == if i == FirstUser(old(users), name) then old(users)[i].(quota := old(users)[i].quota + n)
                            else old(users)[i]
    {
      for i := 0 to |users|
        invariant users == old(users)
        invariant forall j :: 0 <= j < i ==> users[j].name != name
      {
        if users[i].name == name {
          users := users[i := users[i].(quota := users[i].quota + n)];
          return;
        }
      }
    }

    method AddUserUsed(name: string, n: int)
      modifies this
      ensures users == AddUsed(old(users), name, n)
      ensures |users| == |old(users)|
      ensures forall i :: 0 <= i < |users| ==>
                users[i] == if name != "" && i == FirstUser(old(users), name)
                            then old(users)[i].(used := old(users)[i].used + n) else old(users)[i]
    {
      if name == "" {
        return;
      }
      for i := 0 to |users|
        invariant users == old(users)
        invariant forall j :: 0 <= j < i ==> users[j].name != name
      {
        if users[i].name == name {
          users := users[i := users[i].(used := users[i].used + n)];
          return;
        }
      }
    }

    method UserQuotaAllowed(name: string) returns (ok: bool)
      ensures ok <==> QuotaAllowed(users, name)
      ensures !ok <==> exists i :: && 0 <= i < |users| && users[i].name == name != ""
                                   && (forall j :: 0 <= j < i ==> users[j].name != name)
                                   && (users[i].status != 1 || (users[i].quota >= 0 && users[i].used >= users[i].quota))
    {
      if name == "" {
        return true;
      }
      for i := 0 to |users|
        invariant forall j :: 0 <= j < i ==> users[j].name != name
      {
        if users[i].name == name {
          if users[i].status != 1 {
            return false;
          }
          if users[i].quota >= 0 && users[i].used >= users[i].quota {
            return false;
          }
          return true;
        }
      }
      return true;
    }

    method GetUserByUsername(name: string) returns (r: Lookup<User>)
      ensures r == GetUser(users, name)
      ensures r == if FirstUser(users, name) < |users| then Found(users[FirstUser(users, name)]) else Missing
    {
      for i := 0 to |users|
        invariant forall j :: 0 <= j < i ==> users[j].name != name
      {
        if users[i].name == name {
          return Found(users[i]);
        }
      }
      return Missing;
    }

    /** Refuses a name that is taken, so names stay distinct. */
    method CreateUser(name: string, role: string, quota: int) returns (ok: bool)
      modifies this
      ensures ok <==> forall i :: 0 <= i < |old(users)| ==> old(users)[i].name != name
      ensures users == if ok then old(users) + [User(name, role, 1, quota, 0)] else old(users)
    {
      for i := 0 to |users|
        invariant users == old(users)
        invariant forall j :: 0 <= j < i ==> users[j].name != name
      {
        if users[i].name == name {
          return false;
        }
      }
      users := users + [User(name, role, 1, quota, 0)];
      return true;
    }
  }

  class Tokens {
    var tokens: seq<Token>

    constructor (initial: seq<Token>)
      ensures tokens == initial
    {
      tokens := initial;
    }

    method GetToken(key: string) returns (r: Lookup<Token>)
      ensures r == if FirstToken(tokens, key) < |tokens| then Found(tokens[FirstToken(tokens, key)]) else Missing
    {
      for i := 0 to |tokens|
        invariant forall j :: 0 <= j < i ==> tokens[j].key != key
      {
        if tokens[i].key == key {
          return Found(tokens[i]);
        }
      }
      return Missing;
    }

    /** Checks again under the lock before it charges. */
    method UseToken(key: string, cost: int) returns (outcome: Outcome)
      modifies this
      ensures outcome == UseOutcome(old(tokens), key)
      ensures tokens == UseTokens(old(tokens), key, cost)
      ensures var i := FirstToken(old(tokens), key);
              && (outcome == Invalid <==> i == |old(tokens)| || old(tokens)[i].status != 1)
              && (outcome == Exceeded <==>
                   && i < |old(tokens)| && old(tokens)[i].status == 1 && old(tokens)[i].unlimited == 0
                   && old(tokens)[i].quota >= 0 && old(tokens)[i].used >= old(tokens)[i].quota)
              && |tokens| == |old(tokens)|
              && forall j :: 0 <= j < |tokens| ==>
                   tokens[j] == if j == i && outcome == Used then old(tokens)[j].(used := old(tokens)[j].used + cost)
                                else old(tokens)[j]
    {
      for i := 0 to |tokens|
        invariant tokens == old(tokens)
        invariant forall j :: 0 <= j < i ==> tokens[j].key != key
      {
        if tokens[i].key == key {
          if tokens[i].status != 1 {
            return Invalid;
          }
          if tokens[i].unlimited == 0 && tokens[i].quota >= 0 {
            if tokens[i].used >= tokens[i].quota {
              return Exceeded;
            }
          }
          tokens := tokens[i := tokens[i].(used := tokens[i].used + cost)];
          return Used;
        }
      }
      return Invalid;
    }
  }
}
