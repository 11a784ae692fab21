/**
 * The per-issue tracker (scenario_tracker.py): a JSON file mapping issue
 * keys to records holding the chosen test selection and whether the
 * suggestions were posted. Every call loads the whole table, changes one
 * record and writes the table back.
 */
module ScenarioTracker {
  import opened Wrappers
  import opened TestSelector

  /**
   * One issue's record; a field is `None` while its key is missing from the
   * record's dictionary.
   */
  datatype Record = Record(selection: Option<Selection>, suggestionsPosted: Option<bool>)

  const EmptyRecord := Record(None, None)

  /** `data.get(issue_key, {})` */
  function RecordIn(data: map<string, Record>, key: string): Record {
    if key in data then data[key] else EmptyRecord
  }

  /** The table after `save_selection(key, sel)`. */
  function Saved(data: map<string, Record>, key: string, sel: Selection): map<string, Record> {
    data[key := RecordIn(data, key).(selection := Some(sel))]
  }

  /** The table after `mark_suggestions_posted(key)`. */
  function Marked(data: map<string, Record>, key: string): map<string, Record> {
    data[key := RecordIn(data, key).(suggestionsPosted := Some(true))]
  }

  /** `get_selection`: `None` for an unknown key or a record without a selection. */
  function SelectionIn(data: map<string, Record>, key: string): Option<Selection> {
    RecordIn(data, key).selection
  }

  /** `has_suggestions_been_posted`: false unless the record says otherwise. */
  function PostedIn(data: map<string, Record>, key: string): bool {
    RecordIn(data, key).suggestionsPosted.GetOr(false)
  }

  /** The tracker file: absent until the first save. */
  class Tracker {
    var file: Option<map<string, Record>>

    constructor ()
      ensures file.None?
    {
      file := None;
    }

    /** `_load_data`: a missing file reads as the empty table. */
    function Data(): map<string, Record>
      reads this
    {
      file.GetOr(map[])
    }

    method SaveSelection(key: string, sel: Selection)
      modifies this
      ensures file == Some(Saved(old(Data()), key, sel))
    {
      var data := Data();
      var rec := RecordIn(data, key);
      data := data[key := rec.(selection := Some(sel))];
      file := Some(data);
    }

    method GetSelection(key: string) returns (sel: Option<Selection>)
      ensures sel == SelectionIn(Data(), key)
      ensures key !in Data() ==> sel.None?
    {
      var data := Data();
      sel := if key in data then data[key].selection else None;
    }

    method MarkSuggestionsPosted(key: string)
      modifies this
      ensures file == Some(Marked(old(Data()), key))
    {
      var data := Data();
      var rec := RecordIn(data, key);
      data := data[key := rec.(suggestionsPosted := Some(true))];
      file := Some(data);
    }

    method HasSuggestionsBeenPosted(key: string) returns (posted: bool)
      ensures posted == PostedIn(Data(), key)
      ensures key !in Data() ==> !posted
    {
      var data := Data();
      posted := if key in data then data[key].suggestionsPosted.GetOr(false) else false;
    }
  }

  /** A saved selection is read back, and the record's posted flag is kept. */
  lemma SaveThenGet(data: map<string, Record>, key: string, sel: Selection)
    ensures SelectionIn(Saved(data, key, sel), key) == Some(sel)
    ensures PostedIn(Saved(data, key, sel), key) == PostedIn(data, key)
  {
  }

  /** Marking makes the posted flag true and keeps the selection. */
  lemma MarkThenAsk(data: map<string, Record>, key: string)
    ensures PostedIn(Marked(data, key), key)
    ensures SelectionIn(Marked(data, key), key) == SelectionIn(data, key)
  {
  }

  /** Updating one key leaves every other key's record as it was. */
  lemma UpdatesAreLocal(data: map<string, Record>, key: string, other: string, sel: Selection)
    requires other != key
    ensures RecordIn(Saved(data, key, sel), other) == RecordIn(data, other)
    ensures RecordIn(Marked(data, key), other) == RecordIn(data, other)
    ensures Saved(data, key, sel).Keys == data.Keys + {key}
    ensures Marked(data, key).Keys == data.Keys + {key}
  {
  }

  /** Saving twice keeps only the second selection; marking twice is marking once. */
  lemma RepeatedUpdates(data: map<string, Record>, key: string, a: Selection, b: Selection)
    ensures Saved(Saved(data, key, a), key, b) == Saved(data, key, b)
    ensures Marked(Marked(data, key), key) == Marked(data, key)
  {
  }
}
