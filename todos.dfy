/** The entities the todo bot works with: users, fetched messages and todos. */
module Todos {
  import opened Wrappers

  /** The `createdBy` record of a message and of a todo. */
  datatype User = User(id: string, displayName: string)

  /**
    The payload stored with the `Todo` lens, once decoded from JSON:
    `{phrase}`, or `{}` (no phrase) when the lens could not be found.
   */
  datatype LensPayload = LensPayload(phrase: Option<string>)

  const EmptyPayload: LensPayload := LensPayload(None)

  /**
    One annotation of a fetched message. `lens` is absent on annotations that
    are not message-focus lenses. `payload` is what parsing the annotation's
    payload text as JSON gives: None when that parse throws.
   */
  datatype Annotation = Annotation(lens: Option<string>, payload: Option<LensPayload>)

  /** A message as fetched with the fields id, created, annotations, content, createdBy{id, displayName}. */
  datatype Message = Message(
    id: string,
    created: int,
    createdBy: User,
    content: string,
    annotations: seq<Annotation>)

  /**
    A todo. The store files the same object under its creator and under its
    space, so `completed`, the one field ever changed, is shared by both.
   */
  class Todo {
    const id: string
    const created: int
    const createdBy: User
    const messageId: string
    const content: string
    const payload: LensPayload
    const spaceId: string
    var completed: bool

    /** A new todo is never completed. */
    constructor (id: string, created: int, createdBy: User, messageId: string,
                 content: string, payload: LensPayload, spaceId: string)
      ensures this.id == id && this.created == created && this.createdBy == createdBy
      ensures this.messageId == messageId && this.content == content
      ensures this.payload == payload && this.spaceId == spaceId
      ensures !completed
    {
      this.id := id;
      this.created := created;
      this.createdBy := createdBy;
      this.messageId := messageId;
      this.content := content;
      this.payload := payload;
      this.spaceId := spaceId;
      completed := false;
    }
  }
}
