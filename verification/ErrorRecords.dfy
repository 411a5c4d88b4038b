/** Reported errors: each is a table of its own, handed over by reference. */
module ErrorRecords {
  import opened StatsModel

  class ErrorRecord {
    const name: string
    const requestMethod: string
    const error: string
    ghost const key: string
    var occurrences: int

    constructor (info: ErrorInfo, ghost key: string)
      ensures View() == info && this.key == key
    {
      name, requestMethod, error, this.key := info.name, info.requestMethod, info.error, key;
      occurrences := info.occurrences;
    }

    function View(): ErrorInfo
      reads this
    {
      ErrorInfo(name, requestMethod, error, occurrences)
    }
  }

  type Records = map<string, ErrorRecord>

  /** Records are kept under their own keys, so no two keys share one. */
  ghost predicate Keyed(records: Records) {
    forall k :: k in records ==> records[k].key == k
  }

  ghost function InfosOf(records: Records): (infos: map<string, ErrorInfo>)
    reads records.Values
    ensures infos.Keys == records.Keys
  {
    map k | k in records :: records[k].View()
  }

  lemma InfosAre(records: Records, infos: map<string, ErrorInfo>)
    requires records.Keys == infos.Keys && forall k :: k in records ==> records[k].View() == infos[k]
    ensures InfosOf(records) == infos
  {
  }
}
