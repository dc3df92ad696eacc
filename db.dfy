/** What the MySQL server reports back to the models. */
module Db {

  /** A `PDOException` the server raises for a write: a unique index or a foreign key
      refused it. */
  datatype DbError =
    | DuplicateKey(column: string)
    | ForeignKey(table: string)
}
