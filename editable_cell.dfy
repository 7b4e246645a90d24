/**
 * A table cell that turns into a text field when clicked. Enter or leaving the field saves the
 * trimmed text, but only when it differs from the value shown; Escape throws the edit away. While
 * the cell is not being edited, its draft follows the value it is given.
 */
module EditableCell {
  import opened Wrappers
  import opened Text

  /** The value a cell shows: a string, a number, or nothing (`undefined` or `null`). */
  datatype CellValue = Missing | TextValue(text: string) | NumberValue(number: int)

  /** How the value is formatted. */
  datatype CellType = PlainText | Number | Currency

  /**
   * What the cell shows when not editing: the placeholder, a dollar amount (its locale
   * formatting is not part of this model), or the value's text.
   */
  datatype Display = Placeholder(placeholder: string) | Dollars(amount: int) | Plain(text: string)

  /** `String(value ?? "")`. */
  function ValueText(value: CellValue): string {
    match value
    case Missing => ""
    case TextValue(s) => s
    case NumberValue(n) => IntToString(n)
  }

  /** `isEmpty`: the value is undefined, null or the empty string. */
  predicate IsEmpty(value: CellValue) {
    value.Missing? || value == TextValue("")
  }

  /** A value's text is empty exactly when the value counts as empty: a number's never is. */
  lemma ValueTextEmpty(value: CellValue)
    ensures ValueText(value) == "" <==> IsEmpty(value)
  {
  }

  /** `displayValue`: the placeholder exactly for an empty value, else dollars or the plain text. */
  function DisplayValue(value: CellValue, cellType: CellType, placeholder: string): (r: Display)
    ensures r.Placeholder? <==> IsEmpty(value)
    ensures r.Placeholder? ==> r.placeholder == placeholder
    ensures r.Dollars? <==> cellType == Currency && value.NumberValue?
    ensures r.Dollars? ==> r.amount == value.number
    ensures r.Plain? ==> r.text == ValueText(value) && r.text != ""
  {
    if IsEmpty(value) then Placeholder(placeholder)
    else if cellType == Currency && value.NumberValue? then Dollars(value.number)
    else Plain(ValueText(value))
  }

  /** What a save sends, if anything: the trimmed draft, when it differs from the value's text. */
  function SaveRequest(tempValue: string, value: CellValue): Option<string> {
    if Trim(tempValue) != ValueText(value) then Some(Trim(tempValue)) else None
  }

  /**
   * A save sends nothing exactly when the trimmed draft is the value's text; otherwise it sends
   * text that is not the value's own and has no white space at either end, empty only when the
   * draft was all white space.
   */
  lemma SaveRequestSpec(tempValue: string, value: CellValue)
    ensures SaveRequest(tempValue, value).None? <==> Trim(tempValue) == ValueText(value)
    ensures SaveRequest(tempValue, value).Some? ==>
      var sent := SaveRequest(tempValue, value).value;
      && sent != ValueText(value)
      && (sent == "" <==> AllWhitespace(tempValue))
      && (sent != "" ==> !IsWhitespace(sent[0]) && !IsWhitespace(sent[|sent| - 1]))
  {
    var trimmed := Trim(tempValue);
    TrimSpec(tempValue);
    assert SaveRequest(tempValue, value) == if trimmed != ValueText(value) then Some(trimmed) else None;
  }

  /**
   * Saving a draft that still holds the value's text sends nothing, when that text has no white
   * space at its ends (a number's text never has).
   */
  lemma UntouchedSaveIsSilent(value: CellValue)
    requires ValueText(value) != "" ==>
      !IsWhitespace(ValueText(value)[0]) && !IsWhitespace(ValueText(value)[|ValueText(value)| - 1])
    ensures SaveRequest(ValueText(value), value).None?
  {
    TrimSpec(ValueText(value));
  }

  /** A save awaiting its outcome: the text sent and the value's text when it was sent. */
  datatype PendingSave = PendingSave(sent: string, originalValue: string)

  /** A cell's state. */
  class Cell {
    /** The props: the value shown, its type, and whether editing starts from an empty draft. */
    var value: CellValue
    var cellType: CellType
    var clearOnEdit: bool
    /** The component state. */
    var editing: bool
    var tempValue: string
    var isSaving: bool
    /** The texts handed to `onSave` so far, in order. */
    var saves: seq<string>

    /** A new cell: not editing, its draft the value's text. */
    constructor(value: CellValue, cellType: CellType, clearOnEdit: bool)
      ensures this.value == value && this.cellType == cellType && this.clearOnEdit == clearOnEdit
      ensures !editing && !isSaving && tempValue == ValueText(value) && saves == []
    {
      this.value := value;
      this.cellType := cellType;
      this.clearOnEdit := clearOnEdit;
      editing := false;
      tempValue := ValueText(value);
      isSaving := false;
      saves := [];
    }

    /** The sync effect: while not editing, the draft is the value's text. */
    method SyncEffect()
      modifies this
      ensures !editing ==> tempValue == ValueText(value)
      ensures old(editing) ==> tempValue == old(tempValue)
      ensures editing == old(editing) && isSaving == old(isSaving) && saves == old(saves)
      ensures value == old(value) && cellType == old(cellType) && clearOnEdit == old(clearOnEdit)
    {
      if !editing {
        tempValue := ValueText(value);
      }
    }

    /** A new value arrives from the parent, and the sync effect runs. */
    method ReceiveValue(newValue: CellValue)
      modifies this
      ensures value == newValue
      ensures tempValue == if old(editing) then old(tempValue) else ValueText(newValue)
      ensures editing == old(editing) && isSaving == old(isSaving) && saves == old(saves)
      ensures cellType == old(cellType) && clearOnEdit == old(clearOnEdit)
    {
      value := newValue;
      SyncEffect();
    }

    /** `handleClick`: editing starts unless a save is in progress, from an empty draft if asked. */
    method Click()
      modifies this
      ensures old(isSaving) ==> unchanged(this)
      ensures !old(isSaving) ==> editing && tempValue == if clearOnEdit then "" else old(tempValue)
      ensures isSaving == old(isSaving) && saves == old(saves)
      ensures value == old(value) && cellType == old(cellType) && clearOnEdit == old(clearOnEdit)
    {
      if !isSaving {
        editing := true;
        if clearOnEdit {
          tempValue := "";
        }
      }
    }

    /** The field's `onChange`. */
    method Edit(text: string)
      modifies this
      ensures tempValue == text
      ensures editing == old(editing) && isSaving == old(isSaving) && saves == old(saves)
      ensures value == old(value) && cellType == old(cellType) && clearOnEdit == old(clearOnEdit)
    {
      tempValue := text;
    }

    /**
     * `handleSave` up to its await. Nothing while a save is in progress. An unchanged draft ends
     * editing without saving. A changed one is handed to `onSave` trimmed, and the cell waits
     * with `isSaving` raised.
     */
    method BeginSave() returns (pending: Option<PendingSave>)
      modifies this
      ensures old(isSaving) ==> pending.None? && unchanged(this)
      ensures !old(isSaving) && SaveRequest(old(tempValue), value).None? ==>
        pending.None? && !editing && !isSaving && saves == old(saves)
      ensures !old(isSaving) && SaveRequest(old(tempValue), value).Some? ==>
        && pending == Some(PendingSave(SaveRequest(old(tempValue), value).value, ValueText(value)))
        && isSaving && editing == old(editing)
        && saves == old(saves) + [SaveRequest(old(tempValue), value).value]
      ensures tempValue == old(tempValue)
      ensures value == old(value) && cellType == old(cellType) && clearOnEdit == old(clearOnEdit)
    {
      if isSaving {
        return None;
      }
      var request := SaveRequest(tempValue, value);
      if request.Some? {
        isSaving := true;
        saves := saves + [request.value];
        return Some(PendingSave(request.value, ValueText(value)));
      }
      editing := false;
      pending := None;
    }

    /**
     * `handleSave` after its await: a failed save puts the original text back in the draft;
     * either way the save flag drops and editing ends.
     */
    method FinishSave(pending: PendingSave, succeeded: bool)
      modifies this
      ensures !isSaving && !editing
      ensures tempValue == if succeeded then old(tempValue) else pending.originalValue
      ensures saves == old(saves)
      ensures value == old(value) && cellType == old(cellType) && clearOnEdit == old(clearOnEdit)
    {
      if !succeeded {
        tempValue := pending.originalValue;
      }
      isSaving := false;
      editing := false;
    }

    /** `handleCancel`: the draft goes back to the value's text and editing ends. */
    method Cancel()
      modifies this
      ensures tempValue == ValueText(value) && !editing
      ensures isSaving == old(isSaving) && saves == old(saves)
      ensures value == old(value) && cellType == old(cellType) && clearOnEdit == old(clearOnEdit)
    {
      tempValue := ValueText(value);
      editing := false;
    }

    /**
     * `handleKeyDown`: Enter saves, exactly as `BeginSave` does; Escape cancels; any other key
     * does nothing.
     */
    method KeyDown(key: string) returns (pending: Option<PendingSave>)
      modifies this
      ensures key == "Enter" && old(isSaving) ==> pending.None? && unchanged(this)
      ensures key == "Enter" && !old(isSaving) && SaveRequest(old(tempValue), value).None? ==>
        pending.None? && !editing && !isSaving && saves == old(saves)
      ensures key == "Enter" && !old(isSaving) && SaveRequest(old(tempValue), value).Some? ==>
        && pending == Some(PendingSave(SaveRequest(old(tempValue), value).value, ValueText(value)))
        && isSaving && editing == old(editing)
        && saves == old(saves) + [SaveRequest(old(tempValue), value).value]
      ensures key == "Enter" ==> tempValue == old(tempValue)
      ensures key == "Escape" ==>
        && pending.None? && tempValue == ValueText(value) && !editing
        && isSaving == old(isSaving) && saves == old(saves)
      ensures key != "Enter" && key != "Escape" ==> pending.None? && unchanged(this)
      ensures value == old(value) && cellType == old(cellType) && clearOnEdit == old(clearOnEdit)
    {
      pending := None;
      if key == "Enter" {
        pending := BeginSave();
      } else if key == "Escape" {
        Cancel();
      }
    }

    /** `handleBlur`: leaving the field saves, exactly as `BeginSave` does. */
    method Blur() returns (pending: Option<PendingSave>)
      modifies this
      ensures old(isSaving) ==> pending.None? && unchanged(this)
      ensures !old(isSaving) && SaveRequest(old(tempValue), value).None? ==>
        pending.None? && !editing && !isSaving && saves == old(saves)
      ensures !old(isSaving) && SaveRequest(old(tempValue), value).Some? ==>
        && pending == Some(PendingSave(SaveRequest(old(tempValue), value).value, ValueText(value)))
        && isSaving && editing == old(editing)
        && saves == old(saves) + [SaveRequest(old(tempValue), value).value]
      ensures tempValue == old(tempValue)
      ensures value == old(value) && cellType == old(cellType) && clearOnEdit == old(clearOnEdit)
    {
      pending := BeginSave();
    }
  }

  /**
   * A save that was waiting settles, and then the `[value, editing]` effect runs because editing
   * has ended: whether the save succeeded or failed, the draft shows the value's text again.
   */
  method SettleSave(cell: Cell, pending: PendingSave, succeeded: bool)
    modifies cell
    ensures !cell.editing && !cell.isSaving && cell.tempValue == ValueText(cell.value)
    ensures cell.saves == old(cell.saves)
    ensures cell.value == old(cell.value) && cell.cellType == old(cell.cellType)
    ensures cell.clearOnEdit == old(cell.clearOnEdit)
  {
    cell.FinishSave(pending, succeeded);
    cell.SyncEffect();
  }

  /**
   * A save of an unchanged draft ends editing, and then the `[value, editing]` effect runs: the
   * draft, which trimmed to the value's text, becomes exactly that text.
   */
  method SaveUnchanged(cell: Cell)
    requires !cell.isSaving && SaveRequest(cell.tempValue, cell.value).None?
    modifies cell
    ensures !cell.editing && !cell.isSaving && cell.tempValue == ValueText(cell.value)
    ensures cell.saves == old(cell.saves)
    ensures cell.value == old(cell.value) && cell.cellType == old(cell.cellType)
    ensures cell.clearOnEdit == old(cell.clearOnEdit)
  {
    var pending := cell.BeginSave();
    cell.SyncEffect();
  }
}
