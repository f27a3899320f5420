/** What the table stores of a response that has changed since it was sent. */
module StoredReadings {
  import opened BlsTypes
  import opened BlsGoroutine
  import opened BlsReadings
  import opened Database

  /**
   * A response handled after the third of three operators has signed stores an aggregation that lists
   * the third as a non-signer under a key that holds the third's key.
   */
  lemma UnsoundAggregationIsStored(m: Message)
    ensures var r := ThirdsResponse(m, ThresholdReached, 3, {1, 2});
      var late := ReadAt(r, Run(Thirds(), [Signs(m, 1), Signs(m, 2), Signs(m, 3)]).ledger);
      && !SoundResponse(Thirds(), late) && late.error == NoFailure && late.message.Some? && late.aggregation.Some?
      && StoreResponse([], late) == [Row(m, Some(Stored(Digest(m), Aggregation([3], [3], 6, 6))))]
  {
    ThirdSignatureSpoilsReading(m);
    var r := ThirdsResponse(m, ThresholdReached, 3, {1, 2});
    FirstStored(ReadAt(r, Run(Thirds(), [Signs(m, 1), Signs(m, 2), Signs(m, 3)]).ledger), m,
      Aggregation([3], [3], 6, 6));
  }

  lemma FirstStored(r: Response, m: Message, a: Aggregation)
    requires r.error == NoFailure && r.message == Some(m) && r.aggregation == Some(a)
    ensures StoreResponse([], r) == [Row(m, Some(Stored(Digest(m), a)))]
  {
  }
}
