/**
 * The obstacle-creation screen: its form fields, the handlers that change
 * them, and the append of a new obstacle record to the stored list kept
 * under the "obstacles" key.
 *
 * Each handler is one atomic step. The record id (read from the clock by the
 * screen) and the failure of the storage calls are parameters.
 */
module CreateForm {
  import opened Wrappers
  import opened JsString
  import opened CoordinateInput
  import opened DepartmentLookup

  /** The coordinate stored when the field is blank at submit time. */
  const DefaultCoordinate: string := "00.00"

  /** One stored obstacle record; `image` and the department fields may be null or undefined. */
  datatype Obstacle = Obstacle(
    id: string,
    title: string,
    instructions: string,
    latitude: string,
    longitude: string,
    image: Option<string>,
    department: Option<string>,
    departmentCode: Option<string>)

  /** `latitude.trim() ? latitude : "00.00"`: a blank coordinate becomes the default, anything else is kept untrimmed. */
  function StoredCoordinate(held: string): string {
    if IsBlank(held) then DefaultCoordinate else held
  }

  /**
   * The coordinate written to storage is never blank, is the held text itself
   * whenever that is not blank, and is digits and dots only whenever the held
   * text is.
   */
  lemma StoredCoordinateNeverBlank(held: string)
    ensures !IsBlank(StoredCoordinate(held))
    ensures !IsBlank(held) ==> StoredCoordinate(held) == held
    ensures IsCoordinateText(held) ==> IsCoordinateText(StoredCoordinate(held))
  {
  }

  /** A record as a valid submit writes it: title, instructions and both coordinates are filled in. */
  predicate IsComplete(o: Obstacle) {
    !IsBlank(o.title) && !IsBlank(o.instructions) && !IsBlank(o.latitude) && !IsBlank(o.longitude)
  }

  predicate AllComplete(list: seq<Obstacle>) {
    forall i :: 0 <= i < |list| ==> IsComplete(list[i])
  }

  /**
   * The record built by a submit that passed validation. It is complete, and
   * its coordinates are digits and dots only when the form's were.
   */
  function NewObstacle(id: string, title: string, instructions: string, latitude: string,
                       longitude: string, image: Option<string>, info: DepartmentInfo): (r: Obstacle)
    requires !IsBlank(title) && !IsBlank(instructions)
    ensures IsComplete(r)
    ensures r.id == id && r.title == title && r.instructions == instructions && r.image == image
    ensures r.latitude == StoredCoordinate(latitude) && r.longitude == StoredCoordinate(longitude)
    ensures r.department == info.department && r.departmentCode == info.departmentCode
    ensures IsCoordinateText(latitude) && IsCoordinateText(longitude) ==>
              IsCoordinateText(r.latitude) && IsCoordinateText(r.longitude)
  {
    StoredCoordinateNeverBlank(latitude);
    StoredCoordinateNeverBlank(longitude);
    Obstacle(id, title, instructions, StoredCoordinate(latitude), StoredCoordinate(longitude),
             image, info.department, info.departmentCode)
  }

  /** Appending a complete record keeps every record of the list complete. */
  lemma AppendKeepsComplete(list: seq<Obstacle>, o: Obstacle)
    requires AllComplete(list) && IsComplete(o)
    ensures AllComplete(list + [o])
  {
  }

  /** The persistent key-value store, reduced to the one key the screen uses. */
  class ObstacleStore {
    /** The list under the "obstacles" key, decoded; `None` while the key is absent. */
    var saved: Option<seq<Obstacle>>

    constructor (initial: Option<seq<Obstacle>>)
      ensures saved == initial
    {
      saved := initial;
    }

    /** The list a reader gets: an absent key reads as the empty list. */
    function Obstacles(): seq<Obstacle>
      reads this
    {
      if saved.Some? then saved.value else []
    }

    /**
     * Read the list, push the record and write the list back: the new list is
     * the old one with the record at the end, and it stays all complete when
     * it was and the record is.
     */
    method Append(record: Obstacle)
      modifies this
      ensures saved == Some(old(Obstacles()) + [record])
      ensures AllComplete(old(Obstacles())) && IsComplete(record) ==> AllComplete(Obstacles())
    {
      var obstacles := Obstacles();
      if AllComplete(obstacles) && IsComplete(record) {
        AppendKeepsComplete(obstacles, record);
      }
      obstacles := obstacles + [record];
      saved := Some(obstacles);
    }
  }

  /** How a submit ends: with one of the two alerts, or by saving and leaving the screen. */
  datatype SubmitOutcome = MissingRequiredField | SaveFailed | Saved

  /** The component state of the creation screen. */
  class CreateScreen {
    var title: string
    var instructions: string
    var latitude: string
    var longitude: string
    var selectedImage: Option<string>
    var departmentInfo: DepartmentInfo
    const store: ObstacleStore

    /** Every field at its initial value. */
    predicate IsReset()
      reads this
    {
      title == "" && instructions == "" && latitude == "" && longitude == ""
      && selectedImage == None && departmentInfo == UnknownDepartment
    }

    constructor (store: ObstacleStore)
      ensures this.store == store && IsReset()
    {
      title, instructions, latitude, longitude := "", "", "", "";
      selectedImage := None;
      departmentInfo := UnknownDepartment;
      this.store := store;
    }

    /** The title input's `onChangeText`. */
    method SetTitle(text: string)
      modifies this`title
      ensures title == text
    {
      title := text;
    }

    /** The instructions input's `onChangeText`. */
    method SetInstructions(text: string)
      modifies this`instructions
      ensures instructions == text
    {
      instructions := text;
    }

    /** `handleLatitudeChange`: the field only ever receives sanitized text from the keyboard. */
    method HandleLatitudeChange(text: string)
      modifies this`latitude
      ensures latitude == Sanitize(text) && IsCoordinateText(latitude)
    {
      latitude := Sanitize(text);
    }

    /** `handleLongitudeChange`. */
    method HandleLongitudeChange(text: string)
      modifies this`longitude
      ensures longitude == Sanitize(text) && IsCoordinateText(longitude)
    {
      longitude := Sanitize(text);
    }

    /** A picked image, once compressed, becomes the pending image. */
    method OnImageCompressed(uri: string)
      modifies this`selectedImage
      ensures selectedImage == Some(uri)
    {
      selectedImage := Some(uri);
    }

    /**
     * The state update after the one-shot position fix: the formatted
     * coordinates fill both fields and the lookup's result replaces the pair.
     */
    method OnPositionResolved(lat: string, lon: string, lookup: LookupOutcome)
      modifies this`latitude, this`longitude, this`departmentInfo
      ensures latitude == lat && longitude == lon
      ensures departmentInfo == DepartmentFromLookup(lookup)
    {
      latitude, longitude := lat, lon;
      departmentInfo := DepartmentFromLookup(lookup);
    }

    /**
     * `handleSubmit`. A blank title or instructions stops it with nothing
     * changed. Otherwise the new record is appended to the stored list (an
     * absent key counting as empty) and the form is reset; when a storage
     * call fails, neither the store nor the form changes.
     */
    method HandleSubmit(id: string, storageFails: bool) returns (outcome: SubmitOutcome)
      modifies this, store
      ensures outcome == MissingRequiredField <==> IsBlank(old(title)) || IsBlank(old(instructions))
      ensures outcome == SaveFailed <==> !IsBlank(old(title)) && !IsBlank(old(instructions)) && storageFails
      ensures outcome != Saved ==> unchanged(this, store)
      ensures outcome == Saved ==>
                store.saved == Some(old(store.Obstacles()) + [Obstacle(
                  id, old(title), old(instructions),
                  StoredCoordinate(old(latitude)), StoredCoordinate(old(longitude)),
                  old(selectedImage), old(departmentInfo).department, old(departmentInfo).departmentCode)])
      ensures outcome == Saved ==> IsReset()
      ensures outcome == Saved ==> IsComplete(store.Obstacles()[|store.Obstacles()| - 1])
      ensures AllComplete(old(store.Obstacles())) ==> AllComplete(store.Obstacles())
    {
      if IsBlank(title) || IsBlank(instructions) {
        return MissingRequiredField;
      }
      if storageFails {
        return SaveFailed;
      }
      ghost var before := store.Obstacles();
      var record := NewObstacle(id, title, instructions, latitude, longitude, selectedImage, departmentInfo);
      store.Append(record);
      ClearFields();
      assert store.Obstacles() == before + [record];
      outcome := Saved;
    }

    /** `handleBack`: the form is reset and the store is left alone. */
    method HandleBack()
      modifies this
      ensures IsReset()
      ensures unchanged(store)
    {
      ClearFields();
    }

    /** The six setter calls shared by a successful submit and by going back. */
    method ClearFields()
      modifies this`title, this`instructions, this`latitude, this`longitude, this`selectedImage, this`departmentInfo
      ensures IsReset()
    {
      title, instructions, latitude, longitude := "", "", "", "";
      selectedImage := None;
      departmentInfo := UnknownDepartment;
    }
  }
}
