/** `IsParticipantOfConversation`, the REST framework permission of the
    chats app: a request needs an authenticated user, and an object may be
    reached only by its participants. */
module Permissions {
  import opened Wrappers

  /** The `request.user` object: the anonymous user, or a user account,
      which compares equal to another account with the same key. */
  datatype Principal = AnonymousUser | Account(id: nat)

  /** An HTTP request as the permission sees it. `user` is `None` when no
      user object is attached at all. */
  datatype Request = Request(user: Option<Principal>, httpMethod: string)

  /** Whether the object has an attribute (`hasattr`), and its value. */
  datatype Attr<T> = Absent | Present(value: T)

  /** The object a view's `get_object()` returns. A conversation has
      `participants`; a message of the signals app has a `sender` and a
      nullable `receiver`; a message of the chats app has a `sender` only.
      User columns hold account keys. */
  datatype Target = Target(
    participants: Attr<set<nat>>,
    sender: Attr<Option<nat>>,
    receiver: Attr<Option<nat>>)

  /** The methods for which the object check answers with participation. */
  const ParticipantMethods: seq<string> := ["GET", "POST", "PUT", "PATCH", "DELETE"]

  /** Python's `==` between `request.user` and a user column: `None` equals
      only `None`, an account equals the account with its key, and the
      anonymous user equals neither. */
  predicate SameUser(user: Option<Principal>, column: Option<nat>) {
    match user
    case None => column == None
    case Some(AnonymousUser) => false
    case Some(Account(id)) => column == Some(id)
  }

  /** `has_permission`: any request whose user is present and
      authenticated. */
  function HasPermission(req: Request): (r: bool)
    ensures r <==> exists id :: req.user == Some(Account(id))
  {
    req.user.Some? && req.user.value.Account?
  }

  /** The `is_participant` test: the participants decide when the object
      has them; otherwise the sender or the receiver, when it has both;
      otherwise no one. */
  function IsParticipant(user: Option<Principal>, obj: Target): (r: bool)
    ensures obj.participants.Present? ==>
      (r <==> exists id :: user == Some(Account(id)) && id in obj.participants.value)
    ensures obj.participants.Absent? && obj.sender.Present? && obj.receiver.Present? ==>
      (r <==> SameUser(user, obj.sender.value) || SameUser(user, obj.receiver.value))
    ensures obj.participants.Absent? && (obj.sender.Absent? || obj.receiver.Absent?) ==> !r
  {
    if obj.participants.Present? then
      user.Some? && user.value.Account? && user.value.id in obj.participants.value
    else if obj.sender.Present? && obj.receiver.Present? then
      SameUser(user, obj.sender.value) || SameUser(user, obj.receiver.value)
    else
      false
  }

  /** `has_object_permission`: participation, for the listed methods only. */
  function HasObjectPermission(req: Request, obj: Target): (r: bool)
    ensures r ==> req.httpMethod in ParticipantMethods
    ensures req.httpMethod in ParticipantMethods ==> (r <==> IsParticipant(req.user, obj))
  {
    if req.httpMethod in ParticipantMethods then IsParticipant(req.user, obj) else false
  }

  /** When the object has participants, its sender and receiver are never
      consulted. */
  lemma ParticipantsTakePrecedence(req: Request, obj: Target,
                                   sender: Attr<Option<nat>>, receiver: Attr<Option<nat>>)
    requires obj.participants.Present?
    ensures HasObjectPermission(req, obj) ==
            HasObjectPermission(req, obj.(sender := sender, receiver := receiver))
  {
  }

  /** An object with neither participants nor both sender and receiver is
      denied to everyone; a chats-app message, which has no `receiver`, is
      such an object, so even its sender is refused. */
  lemma ShapelessObjectDenied(req: Request, obj: Target)
    requires obj.participants.Absent? && (obj.sender.Absent? || obj.receiver.Absent?)
    ensures !HasObjectPermission(req, obj)
  {
  }

  /** Any other method (`HEAD`, `OPTIONS`, a lower-case `get`) is denied
      even to a participant. */
  lemma OtherMethodsDenied(req: Request, obj: Target)
    requires req.httpMethod !in ParticipantMethods
    ensures !HasObjectPermission(req, obj)
  {
  }

  /** The framework asks `has_object_permission` only after
      `has_permission` has passed; together they admit exactly the
      authenticated accounts that take part in the object. */
  lemma GrantedOnlyToParticipatingAccounts(req: Request, obj: Target)
    ensures HasPermission(req) && HasObjectPermission(req, obj) <==>
      && req.httpMethod in ParticipantMethods
      && req.user.Some? && req.user.value.Account?
      && var id := req.user.value.id;
         if obj.participants.Present? then id in obj.participants.value
         else obj.sender.Present? && obj.receiver.Present? &&
              (obj.sender.value == Some(id) || obj.receiver.value == Some(id))
  {
  }

  /** Taken alone, the object check lets a request without a user object
      through to a message whose receiver is NULL: Python's `None == None`. */
  lemma MissingUserMatchesNullReceiver(sender: Option<nat>)
    ensures HasObjectPermission(Request(None, "GET"),
                                Target(Absent, Present(sender), Present(None)))
  {
  }
}
