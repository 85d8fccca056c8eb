/** The clients API (`useClients`, `useCreateClient`). */
module Clients {
  import opened Wrappers
  import Restify

  datatype Client = Client(
    id: nat,
    name: string,
    phone: string,
    address: string,
    createdAt: string,
    updatedAt: string)

  /** The variables of the clients query; `search` is optional. */
  datatype ClientsVariables = ClientsVariables(search: Option<string>)

  /** The query parameters sent with the list request: `search` only when it is a
      non-empty string, nothing else. */
  function SearchParams(variables: Option<ClientsVariables>): (params: map<string, string>)
    ensures "search" in params
        <==> variables.Some? && variables.value.search.Some? && |variables.value.search.value| > 0
    ensures "search" in params ==> params["search"] == variables.value.search.value
    ensures params.Keys <= {"search"}
  {
    match variables
    case Some(ClientsVariables(Some(s))) => if |s| > 0 then map["search" := s] else map[]
    case _ => map[]
  }

  function WithId(c: Client, id: nat): Client
  {
    c.(id := id)
  }

  /** The client list: one client per entry, in entry order, id from the envelope. */
  function NormaliseList<R>(entries: seq<Restify.Entry<Client, R>>): seq<Client>
  {
    Restify.Normalise(entries, WithId)
  }

  function IdOf(c: Client): nat { c.id }

  lemma ListRoundTrip<R>(cs: seq<Client>)
    ensures NormaliseList(Restify.Wrap<Client, R>(cs, IdOf, "clients")) == cs
  {
    Restify.NormaliseWrap<Client, R>(cs, IdOf, WithId, "clients");
  }

  datatype CreateClientInput = CreateClientInput(name: string, phone: Option<string>, address: Option<string>)

  /** The result of creating a client: the envelope's attributes when present, else the body. */
  function UnwrapCreated(b: Restify.Body<Client>): Restify.Unwrapped<Client>
  {
    Restify.UnwrapAttributes(b)
  }
}
