/** The "Save Record" action of EMO's `EmotionRecordView`. */
module EmotionRecordView {
  import opened EmoMood
  import opened EmoService

  /**
   * `saveRecord()`: the button only logs the selected mood and note; it never reaches the
   * record service, so the stored records stay as they were.
   */
  method SaveRecord(service: EmotionDataService, selectedMood: Mood, note: string)
    ensures service.defaults == old(service.defaults)
    ensures service.GetAllRecords() == old(service.GetAllRecords())
  {
  }
}
