/**
 The persisted row count: a single JSON file holding `{"count": n}`.
 Only what the file holds is modelled, not its encoding.
 */
module Store {

  /** What the save file holds. `Unparsable` stands for any content from
      which `json.load(f)['count']` cannot produce a value. */
  datatype Stored = Missing | Holds(count: int) | Unparsable

  /** The outcome of `load()`: the row count, or an exception that `load`
      does not catch (it handles only the failure to open the file). */
  datatype Loaded = Count(n: int) | Raised

  function Load(s: Stored): (r: Loaded)
    ensures r == Raised <==> s == Unparsable
    ensures s == Missing ==> r == Count(0)
  {
    match s
    case Missing => Count(0)
    case Holds(n) => Count(n)
    case Unparsable => Raised
  }

  /** `save(rows)` overwrites the file with the new count. */
  function Save(n: int): Stored
  {
    Holds(n)
  }

  /** Whatever was stored before, loading after a save gives the saved count. */
  lemma SaveThenLoad(n: int)
    ensures Load(Save(n)) == Count(n)
  {
  }
}
