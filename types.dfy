/** The records the board store works on (the `Board` interface of src/types.ts). */
module Types {

  /** An optional value: `undefined`/`null` is `None`. */
  datatype Option<T> = None | Some(value: T) {

    /** The value, or `default` when there is none (JavaScript's `??`). */
    function GetOr(default: T): T {
      if Some? then value else default
    }
  }

  /** A JSON value the store carries along but never inspects
      (the editor's content blocks, the cover's CSS object). */
  datatype Opaque = Opaque(token: nat)

  /** The editor document of a board. */
  datatype BoardData = BoardData(blocks: Opaque, version: string, time: int)

  /** The listing metadata of a board; `stamp` orders the listing. */
  datatype Meta = Meta(name: string, stamp: int, cover: string, coverBg: Opaque)

  /** A board as the store holds it: the backend key plus the child's value. */
  datatype Board = Board(key: string, data: BoardData, meta: Meta)

  /** The signed-in identity; only its uid is used. */
  datatype User = User(uid: string)
}
