/**
  The two pure derivations of the chat page (src/app/page.tsx): the chat id
  that makes the chat hook start afresh whenever sign-in state or the
  selected pet changes, and how the pet selection becomes the transport's pet
  key. React memoisation is not modelled: both are functions of their inputs.
 */
module ChatPage {
  import opened Options
  import opened Text
  import opened ChatTransport

  const AnonymousChatId := "anonymous-chat"
  const AuthenticatedChatPrefix := "authenticated-chat-"
  const NoPetChatId := "authenticated-chat-no-pet"

  /** The `chatId` memo; `selectedPetId` is "" while no pet is selected. */
  function ChatId(isAuthenticated: bool, selectedPetId: string): (id: string)
    ensures isAuthenticated <==> StartsWith(id, AuthenticatedChatPrefix)
    ensures !isAuthenticated ==> id == AnonymousChatId
  {
    if isAuthenticated then
      if selectedPetId != "" then AuthenticatedChatPrefix + selectedPetId else NoPetChatId
    else AnonymousChatId
  }

  /** `selectedPetId || undefined`: the empty selection becomes an absent key. */
  function PetKeyFor(selectedPetId: string): (key: Option<string>)
    ensures key.None? <==> selectedPetId == ""
    ensures key.Some? ==> key.value == selectedPetId
  {
    if selectedPetId != "" then Some(selectedPetId) else None
  }

  /** The `transport` memo: the page never passes a base URL. */
  function PageTransport(isAuthenticated: bool, idToken: Option<string>, selectedPetId: string): (t: TransportConfig)
    ensures PetKeyHeader in t.headers <==> isAuthenticated && Truthy(idToken) && selectedPetId != ""
    ensures PetKeyHeader in t.headers ==> t.headers[PetKeyHeader] == selectedPetId
    ensures StartsWith(t.api, DefaultBaseUrl)
  {
    var t := CreateTransport(TransportOptions(isAuthenticated, idToken, PetKeyFor(selectedPetId), None));
    assert t.api[..|DefaultBaseUrl|] == DefaultBaseUrl;
    t
  }

  /** Signed in, two selections share a chat id exactly when they are the same
      selection, with one stated exception: a pet whose key is `no-pet`
      shares its id with having no pet selected. */
  lemma AuthenticatedChatIds(p1: string, p2: string)
    ensures ChatId(true, p1) == ChatId(true, p2) <==>
              || p1 == p2
              || (p1 == "" && p2 == "no-pet")
              || (p1 == "no-pet" && p2 == "")
  {
    var n := |AuthenticatedChatPrefix|;
    assert NoPetChatId == AuthenticatedChatPrefix + "no-pet";
    if ChatId(true, p1) == ChatId(true, p2) {
      var q1 := if p1 == "" then "no-pet" else p1;
      var q2 := if p2 == "" then "no-pet" else p2;
      assert ChatId(true, p1) == AuthenticatedChatPrefix + q1;
      assert ChatId(true, p2) == AuthenticatedChatPrefix + q2;
      assert (AuthenticatedChatPrefix + q1)[n..] == q1;
      assert (AuthenticatedChatPrefix + q2)[n..] == q2;
    }
  }

  /** Hence, signed in, a change between two selected pets always changes the
      chat id and so resets the conversation. */
  lemma PetChangeResetsChat(p1: string, p2: string)
    requires p1 != "" && p2 != "" && p1 != p2
    ensures ChatId(true, p1) != ChatId(true, p2)
  {
    AuthenticatedChatIds(p1, p2);
  }

  /** Signing in or out always changes the chat id. */
  lemma SignInResetsChat(p1: string, p2: string)
    ensures ChatId(true, p1) != ChatId(false, p2)
  {
    assert !StartsWith(AnonymousChatId, AuthenticatedChatPrefix) by {
      assert AnonymousChatId[1] != AuthenticatedChatPrefix[1];
    }
  }

  /** The chat id follows `isAuthenticated` alone while the transport also
      needs a token: signed in without a token, the chat id is an
      authenticated one but requests go to the anonymous endpoint. */
  lemma ChatIdIgnoresToken(selectedPetId: string, idToken: Option<string>)
    requires !Truthy(idToken)
    ensures StartsWith(ChatId(true, selectedPetId), AuthenticatedChatPrefix)
    ensures PageTransport(true, idToken, selectedPetId).api == DefaultBaseUrl + AnonymousPath
    ensures PageTransport(true, idToken, selectedPetId).headers == map[]
  {
    EndpointsDiffer(DefaultBaseUrl);
  }
}
