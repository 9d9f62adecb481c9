/** Identifiers shared by the social-media model. Primary keys are auto-increment integers. */
module Identity {
  type UserId = nat
  type PostId = nat
  type CommentId = nat
  type NotificationId = nat

  /** A `created_at` timestamp; the model only compares timestamps. */
  type Time = int
}

/**
 The `Notification` row of social_media_api/notifications/models.py: who is told, who
 acted, a free-text verb, an optional generic target (content type and object id, each
 nullable), the creation time and the read flag.
 */
module NotificationRecords {
  import opened Results
  import opened Identity

  /** A `ContentType` row, naming a model class by its app label and model name. */
  datatype ContentType = ContentType(appLabel: string, model: string)

  /** `verb` is a `CharField(max_length=255)`. */
  const MaxVerbLength: nat := 255

  datatype Notification = Notification(
    recipient: UserId,
    actor: UserId,
    verb: string,
    targetType: Option<ContentType>,
    targetId: Option<nat>,
    createdAt: Time,
    read: bool)

  /** What the column declarations admit. */
  predicate WellFormed(n: Notification) {
    |n.verb| <= MaxVerbLength
  }

  /**
   `Notification.objects.create(...)`: `created_at` is stamped with the creation time
   (`auto_now_add`) and `read` takes its default, false. Assigning the generic `target`
   sets both halves of the pair; no target leaves both null.
   */
  function Create(recipient: UserId, actor: UserId, verb: string,
                  target: Option<(ContentType, nat)>, now: Time): (n: Notification)
    ensures !n.read
    ensures n.createdAt == now
    ensures n.recipient == recipient && n.actor == actor && n.verb == verb
    ensures n.targetType.Some? == n.targetId.Some? == target.Some?
    ensures target.Some? ==> n.targetType.value == target.value.0 && n.targetId.value == target.value.1
    ensures WellFormed(n) <==> |verb| <= MaxVerbLength
  {
    match target
    case None => Notification(recipient, actor, verb, None, None, now, false)
    case Some((ct, id)) => Notification(recipient, actor, verb, Some(ct), Some(id), now, false)
  }

  /**
   The only update a notification ever receives: its read flag goes to true. Every
   other column, `created_at` included, keeps the value it was created with.
   */
  predicate Evolves(n: Notification, n': Notification) {
    n' == n || n' == n.(read := true)
  }

  lemma EvolvesTransitive(n1: Notification, n2: Notification, n3: Notification)
    requires Evolves(n1, n2) && Evolves(n2, n3)
    ensures Evolves(n1, n3)
    ensures n3.createdAt == n1.createdAt && n3.recipient == n1.recipient
    ensures n1.read ==> n3.read
  {
  }
}
