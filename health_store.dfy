/** The health-data store as the view-models see it: a collaborator that
    answers reads and aggregates over a time range and accepts deletes and
    inserts. What it answers is not modelled; it is a fixed function of the
    requests made to it so far, so that a delete or an insert may change
    what later reads return. */
module HealthStore {

  /** A StepsRecord: a count over [startTime, endTime), instants in local
      milliseconds. */
  datatype StepsRecord = StepsRecord(startTime: int, endTime: int, count: int)

  /** One call made to the store. */
  datatype Request =
    | Read(start: int, end: int)
    | Aggregate(start: int, end: int)
    | Delete(start: int, end: int)
    | Insert(record: StepsRecord)

  class HealthConnectManager {
    /** Every call made so far, oldest first. */
    var requests: seq<Request>
    /** The store's answer to a read of [start, end) after the given requests. */
    const recordsAnswer: (seq<Request>, int, int) -> seq<StepsRecord>
    /** The store's step total over [start, end) after the given requests. */
    const totalAnswer: (seq<Request>, int, int) -> int

    constructor (recordsAnswer: (seq<Request>, int, int) -> seq<StepsRecord>,
                 totalAnswer: (seq<Request>, int, int) -> int)
      ensures requests == []
      ensures this.recordsAnswer == recordsAnswer && this.totalAnswer == totalAnswer
    {
      requests := [];
      this.recordsAnswer := recordsAnswer;
      this.totalAnswer := totalAnswer;
    }

    /** getTotalSteps(start, end). */
    method GetTotalSteps(start: int, end: int) returns (total: int)
      modifies this
      ensures total == totalAnswer(old(requests), start, end)
      ensures requests == old(requests) + [Aggregate(start, end)]
    {
      total := totalAnswer(requests, start, end);
      requests := requests + [Aggregate(start, end)];
    }

    /** readRecords(start, end). */
    method ReadRecords(start: int, end: int) returns (records: seq<StepsRecord>)
      modifies this
      ensures records == recordsAnswer(old(requests), start, end)
      ensures requests == old(requests) + [Read(start, end)]
    {
      records := recordsAnswer(requests, start, end);
      requests := requests + [Read(start, end)];
    }

    /** deleteStepsByTimeRange(startTime, endTime). */
    method DeleteStepsByTimeRange(startTime: int, endTime: int)
      modifies this
      ensures requests == old(requests) + [Delete(startTime, endTime)]
    {
      requests := requests + [Delete(startTime, endTime)];
    }

    /** writeSteps(start, end, count): inserts one record. */
    method WriteSteps(start: int, end: int, count: int)
      modifies this
      ensures requests == old(requests) + [Insert(StepsRecord(start, end, count))]
    {
      requests := requests + [Insert(StepsRecord(start, end, count))];
    }
  }
}
