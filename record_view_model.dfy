/** The entry form's view-model: the draft record, replaced whole on every
    change and written to the store on save. */
module RecordViewModel {
  import opened HealthStore

  /** RecordDetails: the draft's start and end instants and its step count. */
  datatype RecordDetails = RecordDetails(startTime: int, endTime: int, steps: int)

  class NewRecordViewModel {
    const healthConnectManager: HealthConnectManager
    var recordState: RecordDetails

    /** A new draft: both ends at the shared selected day, no steps. */
    constructor (healthConnectManager: HealthConnectManager, selectedSharedDay: int)
      ensures this.healthConnectManager == healthConnectManager
      ensures recordState == RecordDetails(selectedSharedDay, selectedSharedDay, 0)
    {
      this.healthConnectManager := healthConnectManager;
      recordState := RecordDetails(selectedSharedDay, selectedSharedDay, 0);
    }

    /** Replaces the whole draft. */
    method UpdateUiState(recordDetails: RecordDetails)
      modifies this
      ensures recordState == recordDetails
    {
      recordState := recordDetails;
    }

    /** Writes exactly the current draft (its Int count widened to Long) and
        leaves the draft as it is. */
    method InsertRecord()
      modifies healthConnectManager
      ensures recordState == old(recordState)
      ensures healthConnectManager.requests == old(healthConnectManager.requests)
                + [Insert(StepsRecord(recordState.startTime, recordState.endTime, recordState.steps))]
    {
      healthConnectManager.WriteSteps(recordState.startTime, recordState.endTime, recordState.steps);
    }
  }
}
