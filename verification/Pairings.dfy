/** The clients paired with an accessory, and the number of administrators kept beside them. */
module Pairings {
  import opened Wrappers

  type Username = string

  /** Public keys are compared and never looked into. */
  type Key = nat

  datatype Permission = USER | ADMIN

  datatype Client = Client(publicKey: Key, permission: Permission)

  datatype Registry = Registry(clients: map<Username, Client>, admins: int)

  datatype Refusal = AUTHENTICATION | UNKNOWN

  const UNPAIRED := Registry(map[], 0)

  function One(permission: Permission): int { if permission.ADMIN? then 1 else 0 }

  function Added(r: Registry, username: Username, key: Key, permission: Permission): Registry {
    Registry(r.clients[username := Client(key, permission)], r.admins + One(permission))
  }

  function PermissionUpdated(r: Registry, username: Username, permission: Permission): Registry {
    if username !in r.clients then r
    else
      Registry(r.clients[username := r.clients[username].(permission := permission)],
               r.admins + One(permission) - One(r.clients[username].permission))
  }

  function RemovedOne(r: Registry, username: Username): Registry {
    Registry(r.clients - {username},
             r.admins - if username in r.clients then One(r.clients[username].permission) else 0)
  }

  /** Removing the last administrator removes everybody. */
  ghost function Removed(r: Registry, username: Username): Registry {
    var r' := RemovedOne(r, username);
    if r'.admins == 0 then Registry(map[], Drift(r')) else r'
  }

  /** By how much the count is off. */
  ghost function Drift(r: Registry): int {
    r.admins - |Admins(r)|
  }

  predicate HasAdminPermissions(r: Registry, username: Option<Username>) {
    username.Some? && username.value != "" && username.value in r.clients && r.clients[username.value].permission.ADMIN?
  }

  ghost function Admins(r: Registry): set<Username> {
    set u | u in r.clients && r.clients[u].permission.ADMIN?
  }

  ghost predicate Counted(r: Registry) {
    r.admins == |Admins(r)|
  }

  /** Adding a client puts the count off by one more if and only if that client was an administrator before. */
  lemma AddingDrifts(r: Registry, username: Username, key: Key, permission: Permission)
    ensures Drift(Added(r, username, key, permission)) == Drift(r) + if username in Admins(r) then 1 else 0
  {
    var r' := Added(r, username, key, permission);
    if permission.ADMIN? {
      assert Admins(r') == Admins(r) + {username};
    } else {
      assert Admins(r') == Admins(r) - {username};
    }
  }

  lemma UpdatingDrifts(r: Registry, username: Username, permission: Permission)
    ensures Drift(PermissionUpdated(r, username, permission)) == Drift(r)
  {
    var r' := PermissionUpdated(r, username, permission);
    if username !in r.clients {
    } else if permission.ADMIN? {
      assert Admins(r') == Admins(r) + {username};
    } else {
      assert Admins(r') == Admins(r) - {username};
    }
  }

  lemma RemovingOneDrifts(r: Registry, username: Username)
    ensures Drift(RemovedOne(r, username)) == Drift(r)
    ensures Admins(RemovedOne(r, username)) == Admins(r) - {username}
  {
    assert Admins(RemovedOne(r, username)) == Admins(r) - {username};
  }

  /** Whoever is left after a removal was there before, and nobody is left exactly when no administrator is. */
  lemma RemovingCounts(r: Registry, username: Username)
    requires Counted(r)
    ensures Counted(Removed(r, username))
    ensures Removed(r, username).clients == if Admins(r) <= {username} then map[] else r.clients - {username}
  {
    RemovingOneDrifts(r, username);
    var r' := RemovedOne(r, username);
    assert Admins(r') == {} <==> Admins(r) <= {username};
    assert Admins(Registry(map[], 0)) == {};
  }

  // ---------------------------------------------------------------- requests of paired clients

  function AddRefusal(r: Registry, requester: Option<Username>, username: Username, key: Key): Option<Refusal> {
    if !HasAdminPermissions(r, requester) then Some(AUTHENTICATION)
    else if username in r.clients && r.clients[username].publicKey != key then Some(UNKNOWN)
    else None
  }

  function AddRequested(r: Registry, requester: Option<Username>, username: Username, key: Key,
                        permission: Permission): Registry
  {
    if AddRefusal(r, requester, username, key).Some? then r
    else if username in r.clients then PermissionUpdated(r, username, permission)
    else Added(r, username, key, permission)
  }

  ghost function RemoveRequested(r: Registry, requester: Option<Username>, username: Username): Registry {
    if !HasAdminPermissions(r, requester) then r else Removed(r, username)
  }

  /** Administration never puts the count off, whatever it is off by already. */
  lemma AdministrationKeepsDrift(r: Registry, requester: Option<Username>, username: Username, key: Key,
                                 permission: Permission)
    ensures Drift(AddRequested(r, requester, username, key, permission)) == Drift(r)
    ensures Drift(RemoveRequested(r, requester, username)) == Drift(r)
  {
    UpdatingDrifts(r, username, permission);
    AddingDrifts(r, username, key, permission);
    RemovingOneDrifts(r, username);
    assert Admins(Registry(map[], Drift(r))) == {};
  }

  /** Without an administrator, administration changes nothing. */
  lemma AdministrationNeedsAdmins(r: Registry, requester: Option<Username>, username: Username, key: Key,
                                  permission: Permission)
    requires Admins(r) == {}
    ensures AddRequested(r, requester, username, key, permission) == r
    ensures RemoveRequested(r, requester, username) == r
  {
    forall u | u in r.clients ensures r.clients[u].permission.USER? {
      assert u !in Admins(r);
    }
  }

  /** An administrator's request to add a client is refused exactly when that client is known with another key; granted,
      it leaves the client paired with the key and permission asked for. Nobody else is touched. */
  lemma AddRequestedIff(r: Registry, requester: Option<Username>, username: Username, key: Key, permission: Permission,
                        other: Username)
    ensures var r' := AddRequested(r, requester, username, key, permission);
      var admin := requester.Some? && requester.value != "" && requester.value in Admins(r);
      var granted := admin && (username in r.clients ==> r.clients[username].publicKey == key);
      && (AddRefusal(r, requester, username, key) == Some(AUTHENTICATION) <==> !admin)
      && (AddRefusal(r, requester, username, key) == Some(UNKNOWN) <==> admin && !granted)
      && (granted ==> username in r'.clients && r'.clients[username] == Client(key, permission))
      && (!granted ==> r' == r)
      && (other != username ==> (other in r'.clients <==> other in r.clients))
      && (other != username && other in r.clients ==> r'.clients[other] == r.clients[other])
  {
  }

  /** An administrator's request to remove a client leaves everybody else paired as before, unless no administrator
      would be left; then nobody stays. */
  lemma RemoveRequestedIff(r: Registry, requester: Option<Username>, username: Username)
    requires Counted(r)
    ensures var r' := RemoveRequested(r, requester, username);
      var admin := requester.Some? && requester.value != "" && requester.value in Admins(r);
      r'.clients == if !admin then r.clients else if Admins(r) <= {username} then map[] else r.clients - {username}
  {
    RemovingCounts(r, username);
  }

  /** An administrator stays whenever somebody is paired, with one exception: the only administrator takes the
      permission away from itself. */
  lemma AdministratorStaysIff(r: Registry, requester: Option<Username>, username: Username, key: Key,
                              permission: Permission)
    requires Counted(r) && Admins(r) != {}
    ensures Admins(AddRequested(r, requester, username, key, permission)) != {} <==>
      !(Admins(r) == {username} && permission.USER? && AddRefusal(r, requester, username, key).None?)
    ensures Admins(RemoveRequested(r, requester, username)) == {}
      <==> RemoveRequested(r, requester, username).clients == map[]
  {
    var added, removed :=
      AddRequested(r, requester, username, key, permission), RemoveRequested(r, requester, username);
    if AddRefusal(r, requester, username, key).None? {
      if permission.ADMIN? {
        assert Admins(added) == Admins(r) + {username};
      } else {
        assert Admins(added) == Admins(r) - {username};
      }
    }
    RemovingCounts(r, username);
    if removed.clients == map[] {
      assert Admins(removed) == {};
    } else if HasAdminPermissions(r, requester) {
      assert Admins(removed) == Admins(r) - {username};
    }
  }

  // ---------------------------------------------------------------- the objects

  class AccessoryInfo {
    var pairedClients: map<Username, Client>
    var pairedAdminClients: int
    ghost var destroyed: set<Username>   // whose connections were told to close

    function View(): Registry
      reads this
    {
      Registry(pairedClients, pairedAdminClients)
    }

    constructor ()
      ensures View() == UNPAIRED && destroyed == {}
    {
      pairedClients, pairedAdminClients, destroyed := map[], 0, {};
    }

    method AddPairedClient(username: Username, publicKey: Key, permission: Permission)
      modifies this
      ensures View() == Added(old(View()), username, publicKey, permission) && destroyed == old(destroyed)
    {
      pairedClients := pairedClients[username := Client(publicKey, permission)];
      if permission == ADMIN {
        pairedAdminClients := pairedAdminClients + 1;
      }
    }

    method UpdatePermission(username: Username, permission: Permission)
      modifies this
      ensures View() == PermissionUpdated(old(View()), username, permission) && destroyed == old(destroyed)
    {
      if username in pairedClients {
        var oldPermission := pairedClients[username].permission;
        pairedClients := pairedClients[username := pairedClients[username].(permission := permission)];
        if oldPermission == ADMIN && permission != ADMIN {
          pairedAdminClients := pairedAdminClients - 1;
        } else if oldPermission != ADMIN && permission == ADMIN {
          pairedAdminClients := pairedAdminClients + 1;
        }
      }
    }

    method RemovePairedClient0(username: Username)
      modifies this
      ensures View() == RemovedOne(old(View()), username) && destroyed == old(destroyed) + {username}
    {
      if username in pairedClients && pairedClients[username].permission == ADMIN {
        pairedAdminClients := pairedAdminClients - 1;
      }
      pairedClients := pairedClients - {username};
      destroyed := destroyed + {username};
    }

    /** The loop over everybody, once no administrator is left. */
    method RemoveEverybody()
      modifies this
      ensures View() == Registry(map[], Drift(old(View())))
      ensures destroyed == old(destroyed) + old(pairedClients.Keys)
    {
      var remaining := pairedClients.Keys;
      while remaining != {}
        invariant remaining == pairedClients.Keys
        invariant Drift(View()) == Drift(old(View()))
        invariant destroyed + remaining == old(destroyed) + old(pairedClients.Keys)
        decreases |remaining|
      {
        var username0 :| username0 in remaining;
        RemovingOneDrifts(View(), username0);
        RemovePairedClient0(username0);
        remaining := remaining - {username0};
      }
      assert pairedClients == map[];
      assert Admins(View()) == {};
    }

    method RemovePairedClient(username: Username)
      modifies this
      ensures View() == Removed(old(View()), username)
      ensures destroyed == old(destroyed) + {username} + (old(pairedClients.Keys) - pairedClients.Keys)
    {
      RemovePairedClient0(username);
      if pairedAdminClients == 0 {
        RemoveEverybody();
      }
    }

    method HandleAddPairing(requester: Option<Username>, username: Username, publicKey: Key, permission: Permission)
      returns (refusal: Option<Refusal>)
      modifies this
      ensures View() == AddRequested(old(View()), requester, username, publicKey, permission)
      ensures refusal == AddRefusal(old(View()), requester, username, publicKey)
    {
      if !HasAdminPermissions(View(), requester) {
        return Some(AUTHENTICATION);
      }
      if username in pairedClients {
        if pairedClients[username].publicKey != publicKey {
          return Some(UNKNOWN);
        }
        UpdatePermission(username, permission);
      } else {
        AddPairedClient(username, publicKey, permission);
      }
      refusal := None;
    }

    method HandleRemovePairing(requester: Option<Username>, username: Username) returns (refusal: Option<Refusal>)
      modifies this
      ensures View() == RemoveRequested(old(View()), requester, username)
      ensures refusal == if HasAdminPermissions(old(View()), requester) then None else Some(AUTHENTICATION)
    {
      if !HasAdminPermissions(View(), requester) {
        return Some(AUTHENTICATION);
      }
      RemovePairedClient(username);
      refusal := None;
    }
  }
}
