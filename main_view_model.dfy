/** The list screen's view-model: the requested day with its step total, and
    the records read for that day. */
module MainViewModel {
  import opened Clock
  import opened HealthStore

  /** RequestedRecord: the selected day (a midnight, as a day number) and the
      total shown for it. */
  datatype RequestedRecord = RequestedRecord(selectedDay: int, stepsOverall: int)

  /** RecordsUiState: the records read for the selected day. */
  datatype RecordsUiState = RecordsUiState(recordsList: seq<StepsRecord>)

  /** The requested state after a read returned `records` and the store
      reported `total`: the total is taken only when something was read. */
  function AfterRead(requested: RequestedRecord, records: seq<StepsRecord>, total: int): (r: RequestedRecord)
    ensures r.selectedDay == requested.selectedDay
    ensures records == [] ==> r == requested
    ensures records != [] ==> r.stepsOverall == total
  {
    if records != [] then requested.(stepsOverall := total) else requested
  }

  /** The requests one refresh of `day` makes: a read of the day's half-open
      range, then an aggregate over the same range when the read was not empty. */
  function RefreshRequests(day: int, records: seq<StepsRecord>): (rs: seq<Request>)
    ensures 1 <= |rs| <= 2 && rs[0] == Read(DayStart(day), DayStart(day + 1))
    ensures |rs| == 2 <==> records != []
    ensures |rs| == 2 ==> rs[1] == Aggregate(rs[0].start, rs[0].end)
  {
    [Read(DayStart(day), DayStart(day + 1))]
      + (if records != [] then [Aggregate(DayStart(day), DayStart(day + 1))] else [])
  }

  class MainScreenViewModel {
    const healthConnectManager: HealthConnectManager
    var recordsUiState: RecordsUiState
    var requestedRecordState: RequestedRecord

    /** A new view-model: today selected, a zero total, no records. */
    constructor (healthConnectManager: HealthConnectManager, today: int)
      ensures this.healthConnectManager == healthConnectManager
      ensures requestedRecordState == RequestedRecord(today, 0)
      ensures recordsUiState == RecordsUiState([])
    {
      this.healthConnectManager := healthConnectManager;
      recordsUiState := RecordsUiState([]);
      requestedRecordState := RequestedRecord(today, 0);
    }

    /** Replaces the whole requested state. */
    method UpdateRequestedRecordState(requestedRecordDetails: RequestedRecord)
      modifies this
      ensures requestedRecordState == requestedRecordDetails
      ensures recordsUiState == old(recordsUiState)
    {
      requestedRecordState := requestedRecordDetails;
    }

    /** Reads the selected day's range, and refreshes the total from the same
        range only when the read returned something. */
    method ReadDayRecords()
      modifies this, healthConnectManager
      ensures requestedRecordState.selectedDay == old(requestedRecordState.selectedDay)
      ensures var day := old(requestedRecordState.selectedDay);
              var before := old(healthConnectManager.requests);
              var read := healthConnectManager.recordsAnswer(before, DayStart(day), DayStart(day + 1));
              && recordsUiState == RecordsUiState(read)
              && healthConnectManager.requests == before + RefreshRequests(day, read)
              && requestedRecordState == AfterRead(old(requestedRecordState), read,
                   healthConnectManager.totalAnswer(before + [Read(DayStart(day), DayStart(day + 1))],
                                                    DayStart(day), DayStart(day + 1)))
    {
      var startOfNextDay := DayStart(requestedRecordState.selectedDay + 1);
      var records := healthConnectManager.ReadRecords(DayStart(requestedRecordState.selectedDay), startOfNextDay);
      recordsUiState := recordsUiState.(recordsList := records);
      if recordsUiState.recordsList != [] {
        var total := healthConnectManager.GetTotalSteps(DayStart(requestedRecordState.selectedDay), startOfNextDay);
        UpdateRequestedRecordState(requestedRecordState.(stepsOverall := total));
      }
    }

    /** Deletes exactly [startTime, endTime), then refreshes the selected day
        as ReadDayRecords does. */
    method DeleteRecord(startTime: int, endTime: int)
      modifies this, healthConnectManager
      ensures requestedRecordState.selectedDay == old(requestedRecordState.selectedDay)
      ensures var day := old(requestedRecordState.selectedDay);
              var before := old(healthConnectManager.requests) + [Delete(startTime, endTime)];
              var read := healthConnectManager.recordsAnswer(before, DayStart(day), DayStart(day + 1));
              && recordsUiState == RecordsUiState(read)
              && healthConnectManager.requests == before + RefreshRequests(day, read)
              && requestedRecordState == AfterRead(old(requestedRecordState), read,
                   healthConnectManager.totalAnswer(before + [Read(DayStart(day), DayStart(day + 1))],
                                                    DayStart(day), DayStart(day + 1)))
    {
      healthConnectManager.DeleteStepsByTimeRange(startTime, endTime);
      ReadDayRecords();
    }
  }
}
