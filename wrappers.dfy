/** Optional values, results and the exceptions the modelled code can raise. */
module Wrappers {

  datatype Option<T> = None | Some(value: T)

  /** The exceptions that the modelled paths of `main.py` can raise. */
  datatype Failure =
    | SnapshotMissing  // `self.specific_data_actual['AnzFallNeu']` when no snapshot matched (TypeError)
    | ZeroPopulation   // `illnesses / self.einwohnerzahl` with a population of 0 (ZeroDivisionError)
    | DateMissing      // `lk.calculated_incidence_dict[date]` for a date the region lacks (KeyError)
    | NoRegions        // `self.values[0]` on an empty region list (IndexError)
    | PaddingMissing   // `self.value_padding[i]` before the paddings were computed (IndexError)

  datatype Result<T> = Ok(value: T) | Err(error: Failure)

  /** The outcome of an operation that returns nothing but may raise. */
  datatype Outcome = Pass | Fail(error: Failure)
}
