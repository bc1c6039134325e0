/**
 * The winners history kept in data/winners.json: read whole, extended by one
 * record, written back whole. The timestamp is an opaque string supplied
 * by the caller.
 */
module History {
  import opened Participants

  /** One saved winner. */
  datatype WinnerRecord = WinnerRecord(name: string, time: string)

  /** What the history file holds: nothing, something that does not load, or a list of records. */
  datatype StoreFile = Missing | Unreadable | Records(records: seq<WinnerRecord>)

  /** get_winners_history: the stored list; a missing or unreadable file reads as empty. */
  function LoadWinners(file: StoreFile): (history: seq<WinnerRecord>)
    ensures !file.Records? ==> history == []
  {
    if file.Records? then file.records else []
  }

  /** The file a save leaves behind. */
  function AfterSave(file: StoreFile, rec: WinnerRecord): StoreFile
  {
    Records(LoadWinners(file) + [rec])
  }

  /** save_winner: load the list, append one record, write the list back. */
  method SaveWinner(file: StoreFile, name: string, time: string) returns (saved: StoreFile)
    ensures saved == AfterSave(file, WinnerRecord(name, time))
    ensures LoadWinners(saved) == LoadWinners(file) + [WinnerRecord(name, time)]
    ensures |LoadWinners(saved)| == |LoadWinners(file)| + 1
    ensures forall i :: 0 <= i < |LoadWinners(file)| ==> LoadWinners(saved)[i] == LoadWinners(file)[i]
    ensures LoadWinners(saved)[|LoadWinners(saved)| - 1].name == name
  {
    var winners := LoadWinners(file);
    winners := winners + [WinnerRecord(name, time)];
    saved := Records(winners);
  }

  /** A run of saves, in call order. */
  function AfterSaves(file: StoreFile, recs: seq<WinnerRecord>): StoreFile
    decreases |recs|
  {
    if recs == [] then file else AfterSaves(AfterSave(file, recs[0]), recs[1..])
  }

  /** Saving N winners appends exactly those N records, in call order. */
  lemma {:induction false} SavesAppendInOrder(file: StoreFile, recs: seq<WinnerRecord>)
    ensures LoadWinners(AfterSaves(file, recs)) == LoadWinners(file) + recs
    decreases |recs|
  {
    if recs != [] {
      SavesAppendInOrder(AfterSave(file, recs[0]), recs[1..]);
      assert LoadWinners(file) + [recs[0]] + recs[1..] == LoadWinners(file) + recs;
    }
  }

  /**
   * Saving the name typed into the winner box: the stripped text is saved
   * when it is not blank; blank text leaves the file as it was.
   */
  function SubmitTypedWinner(file: StoreFile, text: string, time: string): (saved: StoreFile)
    ensures Strip(text) == [] ==> saved == file
    ensures Strip(text) != [] ==>
      && LoadWinners(saved) == LoadWinners(file) + [WinnerRecord(Strip(text), time)]
      && Strip(LoadWinners(saved)[|LoadWinners(saved)| - 1].name) == LoadWinners(saved)[|LoadWinners(saved)| - 1].name
  {
    StripIdempotent(text);
    if text != [] && Strip(text) != [] then AfterSave(file, WinnerRecord(Strip(text), time)) else file
  }
}
