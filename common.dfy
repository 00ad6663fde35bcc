/**
 * Shared vocabulary of the bootcamp directory: identifiers, the error tags
 * the controllers return, the acting user and the ownership rules that guard
 * every mutation, the Bootcamp record, and the `$match` stage of the two
 * aggregate pipelines.
 */
module Common {

  /** Document identifiers (ObjectIds) and user ids, abstracted to naturals. */
  type Id = nat

  datatype Option<T> = None | Some(value: T)

  /**
   * The ways a request can fail. The first seven are raised by the
   * controllers with an explicit status; the last four are thrown (or
   * reported by the schema layer) and get their status from the error
   * handling middleware, which is not part of this model.
   */
  datatype Error =
    | NotFound          // no document with the given id
    | Unauthorized      // the acting user neither owns the document nor is an admin
    | AlreadyPublished  // a non-admin user already owns a bootcamp
    | NoFileUploaded    // the request carries no files at all
    | NotAnImage        // the mimetype does not start with "image"
    | FileTooLarge      // the file is larger than MAX_FILE_UPLOAD
    | UploadFailed      // moving the file into the upload directory failed
    | Invalid           // a schema validator rejected the document
    | DuplicateKey      // a unique index rejected the document
    | TypeError         // a property was read from `undefined`
    | ReferenceError    // an unbound variable was read

  /** The outcome of a controller or model operation. */
  datatype Outcome<T> = Ok(value: T) | Fail(error: Error)

  /**
   * The HTTP status the code attaches to an error, where the code chooses
   * one: a missing document and a refused owner answer 404, a refused
   * request 400, a failed file move 500; the errors the database layer or
   * the runtime throws carry none of their own.
   */
  function Status(e: Error): (r: Option<nat>)
    ensures r == Some(404) <==> e == NotFound || e == Unauthorized
    ensures r == Some(400) <==> e == AlreadyPublished || e == NoFileUploaded || e == NotAnImage || e == FileTooLarge
    ensures r == Some(500) <==> e == UploadFailed
    ensures r.None? <==> e == Invalid || e == DuplicateKey || e == TypeError || e == ReferenceError
  {
    match e
    case NotFound => Some(404)
    case Unauthorized => Some(404)
    case AlreadyPublished => Some(400)
    case NoFileUploaded => Some(400)
    case NotAnImage => Some(400)
    case FileTooLarge => Some(400)
    case UploadFailed => Some(500)
    case _ => None
  }

  /** The authenticated user of a request (`req.user`). */
  datatype User = User(id: Id, role: string)

  predicate IsAdmin(u: User)
  {
    u.role == "admin"
  }

  /**
   * Authorization guard: a document owned by `owner` may be changed by its
   * owner and by any admin.
   */
  predicate CanMutate(owner: Id, actor: User)
  {
    owner == actor.id || IsAdmin(actor)
  }

  /** A non-admin user may publish at most one bootcamp. */
  predicate CanCreateBootcamp(actor: User, alreadyPublished: bool)
  {
    IsAdmin(actor) || !alreadyPublished
  }

  /**
   * A bootcamp document, reduced to the fields this core reads or writes:
   * the owner, a name standing for the remaining descriptive fields, the
   * photo file name and the two denormalised aggregates (unset until the
   * first recompute writes them).
   */
  datatype Bootcamp = Bootcamp(
    user: Id,
    name: string,
    photo: string,
    averageCost: Option<nat>,
    averageRating: Option<real>)

  /** A request body for an update: the fields it sets. */
  datatype BootcampPatch = BootcampPatch(
    user: Option<Id>,
    name: Option<string>,
    photo: Option<string>,
    averageCost: Option<nat>,
    averageRating: Option<real>)

  function Patched(b: Bootcamp, p: BootcampPatch): Bootcamp
  {
    Bootcamp(
      if p.user.Some? then p.user.value else b.user,
      if p.name.Some? then p.name.value else b.name,
      if p.photo.Some? then p.photo.value else b.photo,
      if p.averageCost.Some? then p.averageCost else b.averageCost,
      if p.averageRating.Some? then p.averageRating else b.averageRating)
  }

  /** Whether `u` owns some bootcamp (`Bootcamp.findOne({ user })`). */
  predicate Publishes(bootcamps: map<Id, Bootcamp>, u: Id)
  {
    exists k :: k in bootcamps && bootcamps[k].user == u
  }

  /**
   * The `$match: { bootcamp: b }` stage over a collection whose ids are all
   * below `n`, given as the map from each child id to its parent bootcamp:
   * the matching ids in increasing order.
   */
  function Matching(parent: map<Id, Id>, b: Id, n: nat): (r: seq<Id>)
    ensures forall i :: 0 <= i < |r| ==> r[i] < n && r[i] in parent && parent[r[i]] == b
    ensures forall i, j :: 0 <= i < j < |r| ==> r[i] < r[j]
  {
    if n == 0 then []
    else Matching(parent, b, n - 1) + (if n - 1 in parent && parent[n - 1] == b then [n - 1] else [])
  }

  /** Every matching child below the bound is in the result. */
  lemma {:induction false} MatchingComplete(parent: map<Id, Id>, b: Id, n: nat, k: Id)
    requires k < n && k in parent && parent[k] == b
    ensures k in Matching(parent, b, n)
  {
    if k < n - 1 {
      MatchingComplete(parent, b, n - 1, k);
    }
  }

  /** The result is exactly the children of `b` below the bound. */
  lemma MatchingExact(parent: map<Id, Id>, b: Id, n: nat)
    ensures forall k :: k in Matching(parent, b, n) <==> k < n && k in parent && parent[k] == b
  {
    forall k | k < n && k in parent && parent[k] == b
      ensures k in Matching(parent, b, n)
    {
      MatchingComplete(parent, b, n, k);
    }
  }

  /** Only which ids point at `b` matters: children of other bootcamps do not. */
  lemma {:induction false} MatchingAgree(p: map<Id, Id>, q: map<Id, Id>, b: Id, n: nat)
    requires forall k :: k < n ==> (k in p && p[k] == b <==> k in q && q[k] == b)
    ensures Matching(p, b, n) == Matching(q, b, n)
  {
    if n > 0 {
      MatchingAgree(p, q, b, n - 1);
    }
  }

  /** Adding a child under the fresh id `n` appends it when it points at `b`. */
  lemma {:induction false} MatchingInsert(p: map<Id, Id>, b: Id, n: nat, parent: Id)
    requires forall k :: k in p ==> k < n
    ensures Matching(p[n := parent], b, n + 1)
         == Matching(p, b, n) + (if parent == b then [n] else [])
  {
    MatchingAgree(p[n := parent], p, b, n);
  }

  /** With no child of `b` below the bound, nothing matches. */
  lemma {:induction false} MatchingEmpty(p: map<Id, Id>, b: Id, n: nat)
    requires forall j :: j < n && j in p ==> p[j] != b
    ensures Matching(p, b, n) == []
  {
    if n > 0 {
      MatchingEmpty(p, b, n - 1);
    }
  }

  /** With `k` the only child of `b` below the bound, exactly `k` matches. */
  lemma {:induction false} MatchingSingle(p: map<Id, Id>, b: Id, n: nat, k: Id)
    requires k < n && k in p && p[k] == b
    requires forall j :: j < n && j in p && p[j] == b ==> j == k
    ensures Matching(p, b, n) == [k]
  {
    if n - 1 == k {
      MatchingEmpty(p, b, k);
    } else {
      MatchingSingle(p, b, n - 1, k);
    }
  }
}
