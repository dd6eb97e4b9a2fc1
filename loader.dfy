/**
 * The loading hook's state and its one effect: build the worklist, wait for
 * every discover request to settle, merge the fulfilled responses into the
 * published list, and keep the loading flag and the error message in step.
 */
module CatalogLoader {
  import opened Wrappers
  import opened Types
  import opened CatalogFetch
  import opened CatalogMerge

  /** The fallback message shown when something other than an `Error` is thrown. */
  const LoadFailedMessage: string := "\U{B370}\U{C774}\U{D130}\U{B97C} \U{BD88}\U{B7EC}\U{C624}\U{B294} \U{B370} \U{C2E4}\U{D328}\U{D588}\U{C2B5}\U{B2C8}\U{B2E4}."

  /** What the body of the effect may throw after the requests settle. */
  datatype Thrown = ErrorValue(message: string) | OtherValue

  /** `err instanceof Error ? err.message : fallback`. */
  function ErrorText(t: Thrown): string {
    match t
    case ErrorValue(m) => m
    case OtherValue => LoadFailedMessage
  }

  /** The three state cells of the hook. */
  class Loader {
    var contents: seq<Content>
    var isLoading: bool
    var error: Option<string>

    /** The initial render: nothing loaded, loading, no error. */
    constructor ()
      ensures contents == [] && isLoading && error == None
    {
      contents := [];
      isLoading := true;
      error := None;
    }

    /**
     * One run of `loadData`. The settled responses arrive as `results`, one per
     * worklist task (`None` for a rejected request); `cancelled` is whether the
     * effect was cleaned up while they were pending; `thrown` is an exception
     * raised while merging, if any. A cancelled run publishes nothing and leaves
     * the loading flag set; otherwise the flag is cleared, and either the merged
     * catalogue is published or the thrown value's message is recorded.
     */
    method LoadData(results: seq<Option<seq<RawItem>>>, cancelled: bool, thrown: Option<Thrown>,
                    year: string -> int)
      requires |results| == |Worklist()|
      modifies this
      ensures cancelled ==> contents == old(contents) && isLoading && error == None
      ensures !cancelled && thrown.None? ==>
                contents == Catalog(Worklist(), results, year) && !isLoading && error == None
      ensures !cancelled && thrown.Some? && thrown.value.ErrorValue? ==>
                contents == old(contents) && !isLoading && error == Some(thrown.value.message)
      ensures !cancelled && thrown.Some? && thrown.value.OtherValue? ==>
                contents == old(contents) && !isLoading && error == Some(LoadFailedMessage)
    {
      isLoading := true;
      error := None;
      var tasks := BuildWorklist();
      if cancelled {
        return;
      }
      if thrown.Some? {
        error := Some(ErrorText(thrown.value));
      } else {
        var merged := MergeResults(tasks, results, year);
        contents := merged;
      }
      isLoading := false;
    }
  }
}
