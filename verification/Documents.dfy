/** A stored document read through a cache that lags behind and written with optimistic concurrency. */
module Documents {
  import opened Common

  /** A text that is read for its content; tidy is what a program writes by itself, untidy what was deployed. */
  datatype Text<T> = Text(content: T, tidy: bool)

  /** The stored version, the one the cache shows, and those written since that one, oldest first. */
  datatype Document<T(==)> = Document(present: T, cached: T, pending: seq<T>)
  {
    /**
      `CreateOrUpdate` when the cached version is to become `desired`: nothing is
      written if it already is, and an outdated cache makes the write fail.
     */
    function Write(desired: T): Option<Document<T>> {
      if desired == cached then Some(this)
      else if pending == [] then Some(Document(desired, cached, [desired]))
      else None
    }

    /** The cache moves on, possibly past several versions. */
    function Deliver(skip: nat): Document<T> {
      if skip < |pending| then Document(present, pending[skip], pending[skip + 1..]) else this
    }

    ghost predicate Valid() {
      present == if pending == [] then cached else pending[|pending| - 1]
    }

    lemma WriteKeeps(desired: T)
      requires Valid()
      ensures Write(desired).Some? ==> Write(desired).value.Valid()
      ensures Write(desired).Some? && Write(desired).value != this ==> cached == present
    {
    }

    lemma DeliverKeeps(skip: nat)
      requires Valid()
      ensures Deliver(skip).Valid()
    {
    }
  }
}
