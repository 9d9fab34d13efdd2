/** `SensorsGateway`: the list of connected clients, kept in step with socket connections. */
module Gateway {
  import opened Wrappers
  import opened Seqs
  import opened Users

  /** One entry of `connectedUsers`: the socket's client id and the user it logged in as. */
  datatype ConnectedUser = ConnectedUser(id: string, username: string, name: string)

  function OtherClient(clientId: string): ConnectedUser -> bool {
    (c: ConnectedUser) => c.id != clientId
  }

  /** Dropping a client that connected last, under an id nobody else had, restores the list. */
  lemma ConnectThenDisconnect(connected: seq<ConnectedUser>, entry: ConnectedUser)
    requires forall i :: 0 <= i < |connected| ==> connected[i].id != entry.id
    ensures Filter(connected + [entry], OtherClient(entry.id)) == connected
  {
    FilterAppend(connected, [entry], OtherClient(entry.id));
    FilterKeepsAll(connected, OtherClient(entry.id));
    assert Filter([entry], OtherClient(entry.id)) == [];
  }

  /** Dropping a client that is not in the list changes nothing. */
  lemma DisconnectUnknown(connected: seq<ConnectedUser>, clientId: string)
    requires forall i :: 0 <= i < |connected| ==> connected[i].id != clientId
    ensures Filter(connected, OtherClient(clientId)) == connected
  {
    FilterKeepsAll(connected, OtherClient(clientId));
  }

  class SensorsGateway {
    var connectedUsers: seq<ConnectedUser>
    const usersService: UsersService

    constructor (usersService: UsersService)
      ensures this.usersService == usersService && connectedUsers == []
    {
      this.usersService := usersService;
      connectedUsers := [];
    }

    /** `handleConnection`: a client whose handshake names a known username is appended with
        that user's username and name; any other client is ignored. */
    method HandleConnection(clientId: string, username: string)
      modifies this
      ensures FindByUsername(usersService.users, username).None? ==> connectedUsers == old(connectedUsers)
      ensures FindByUsername(usersService.users, username).Some? ==>
        var user := FindByUsername(usersService.users, username).value;
        connectedUsers == old(connectedUsers) + [ConnectedUser(clientId, user.username, user.name)]
    {
      var user := FindByUsername(usersService.users, username);
      if user.Some? {
        connectedUsers := connectedUsers + [ConnectedUser(clientId, user.value.username, user.value.name)];
      }
    }

    /** `handleDisconnect`: every entry with the client id goes; the rest keep their order. */
    method HandleDisconnect(clientId: string)
      modifies this
      ensures connectedUsers == Filter(old(connectedUsers), OtherClient(clientId))
      ensures forall i :: 0 <= i < |connectedUsers| ==> connectedUsers[i].id != clientId
      ensures forall i :: 0 <= i < |old(connectedUsers)| && old(connectedUsers)[i].id != clientId ==>
        old(connectedUsers)[i] in connectedUsers
    {
      connectedUsers := Filter(connectedUsers, OtherClient(clientId));
    }

    /** `handleUserAction`: only logs the action. */
    method HandleUserAction(clientId: string, action: string)
      ensures unchanged(this)
    {
    }
  }
}
