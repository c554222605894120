/**
 * The persisted records: books with their lifecycle state and tags, the
 * global tag registry's key, and users with their permissions.
 */
module Entities {
  import opened Base

  datatype BookState = DRAFT | UNAPPROVED | VISIBLE | ARCHIVED

  /** The tag types that the code names. */
  datatype TagType = AUTHOR | GENRE

  /** A tag is identified by its (type, name) pair; the registry is unique on it. */
  datatype Tag = Tag(tagType: TagType, name: string)

  /** Milliseconds since the epoch. */
  type Date = int

  datatype Book = Book(
    id: Id,
    title: string,
    description: string,
    publishedDate: Option<Date>,
    userId: Option<Id>,
    state: BookState,
    imageFile: Option<string>,
    bookFile: Option<string>,
    tags: set<Tag>)

  datatype Permission = ADMIN | CREATE | APPROVE | ARCHIVE | DELETE | EDIT

  datatype User = User(
    id: Id,
    username: string,
    passwordHash: string,
    permissions: set<Permission>,
    lastTokenResetMs: int)

  /** The set of the elements of a list. */
  function Elems<T>(s: seq<T>): set<T> {
    set x | x in s
  }
}
