/**
 * The user-profile form: a saved record, a working copy edited while the
 * form is in edit mode, and the Edit, Save, Cancel and field-change events.
 */
module Profile {
  import opened Wrappers

  /** A profile record: field name to value. */
  type Record = map<string, string>

  const InitialInfo: Record := map[
    "firstName" := "John",
    "lastName" := "Anderson",
    "email" := "john.anderson@nexusanalytics.com",
    "phone" := "+1 (555) 123-4567",
    "department" := "Process Engineering",
    "position" := "Senior Process Engineer",
    "employeeId" := "NA-2024-001",
    "joinDate" := "2024-01-15",
    "location" := "San Francisco, CA",
    "manager" := "Sarah Mitchell",
    "skills" := "Process Optimization, Data Analysis, Chemical Engineering, Statistical Modeling",
    "bio" := "Experienced process engineer with 8+ years in chemical manufacturing and process optimization. Specializes in data-driven process improvements and root cause analysis."]

  /** The fields whose inputs are rendered read-only even in edit mode. */
  const ReadOnlyFields: set<string> := {"employeeId", "joinDate", "manager"}

  /** A field whose input accepts typing in edit mode. */
  predicate Editable(field: string)
    ensures Editable(field) <==> field in InitialInfo.Keys - ReadOnlyFields
    ensures field in ReadOnlyFields ==> !Editable(field)
  {
    field in InitialInfo && field !in ReadOnlyFields
  }

  datatype Form = Form(isEditing: bool, userInfo: Record, editedInfo: Record)

  const InitialForm := Form(false, InitialInfo, InitialInfo)

  /** `handleEdit` */
  function Edit(f: Form): (r: Form)
    ensures r.isEditing && r.userInfo == f.userInfo && r.editedInfo == f.userInfo
    ensures !f.isEditing ==> forall field :: Displayed(r, field) == Displayed(f, field)
  {
    Form(true, f.userInfo, f.userInfo)
  }

  /** `handleSave` */
  function Save(f: Form): (r: Form)
    ensures !r.isEditing && r.userInfo == f.editedInfo && r.editedInfo == f.editedInfo
    ensures f.isEditing ==> forall field :: Displayed(r, field) == Displayed(f, field)
  {
    Form(false, f.editedInfo, f.editedInfo)
  }

  /** `handleCancel` */
  function Cancel(f: Form): (r: Form)
    ensures !r.isEditing && r.userInfo == f.userInfo && r.editedInfo == f.userInfo
    ensures forall field :: Displayed(r, field) == Displayed(Edit(f), field)
  {
    Form(false, f.userInfo, f.userInfo)
  }

  /** `handleInputChange(field, value)` */
  function InputChange(f: Form, field: string, value: string): (r: Form)
    ensures r.editedInfo.Keys == f.editedInfo.Keys + {field} && r.editedInfo[field] == value
    ensures forall k :: k in f.editedInfo && k != field ==> r.editedInfo[k] == f.editedInfo[k]
    ensures r.userInfo == f.userInfo && r.isEditing == f.isEditing
  {
    f.(editedInfo := f.editedInfo[field := value])
  }

  /** The value an `InfoField` shows: the working copy while editing, the saved record otherwise. */
  function Displayed(f: Form, field: string): (r: Option<string>)
    ensures f.isEditing ==> (r.Some? <==> field in f.editedInfo) && (r.Some? ==> r.value == f.editedInfo[field])
    ensures !f.isEditing ==> (r.Some? <==> field in f.userInfo) && (r.Some? ==> r.value == f.userInfo[field])
  {
    var record := if f.isEditing then f.editedInfo else f.userInfo;
    if field in record then Some(record[field]) else None
  }

  /** A run of field changes, applied in order. */
  function Changes(f: Form, edits: seq<(string, string)>): Form
    decreases |edits|
  {
    if edits == [] then f else Changes(InputChange(f, edits[0].0, edits[0].1), edits[1..])
  }

  /** The same run of changes applied to a bare record. */
  function Apply(r: Record, edits: seq<(string, string)>): Record
    decreases |edits|
  {
    if edits == [] then r else Apply(r[edits[0].0 := edits[0].1], edits[1..])
  }

  /** Field changes touch only the working copy. */
  lemma {:induction false} ChangesTouchOnlyCopy(f: Form, edits: seq<(string, string)>)
    ensures Changes(f, edits) == f.(editedInfo := Apply(f.editedInfo, edits))
    decreases |edits|
  {
    if edits != [] {
      ChangesTouchOnlyCopy(InputChange(f, edits[0].0, edits[0].1), edits[1..]);
    }
  }

  /** Edit then Save with no change leaves the saved record as it was. */
  lemma EditSaveKeepsRecord(f: Form)
    ensures Save(Edit(f)).userInfo == f.userInfo
    ensures Save(Edit(f)) == Cancel(f)
  {
  }

  /** Whatever was typed, Cancel restores the working copy and keeps the saved record. */
  lemma CancelDiscards(f: Form, edits: seq<(string, string)>)
    ensures Cancel(Changes(Edit(f), edits)) == Form(false, f.userInfo, f.userInfo)
  {
    ChangesTouchOnlyCopy(Edit(f), edits);
  }

  /** Save stores exactly what was typed over the saved record. */
  lemma SaveCommits(f: Form, edits: seq<(string, string)>)
    ensures Save(Changes(Edit(f), edits)).userInfo == Apply(f.userInfo, edits)
  {
    ChangesTouchOnlyCopy(Edit(f), edits);
  }

  /** Both records hold every profile field, and the read-only fields keep their initial values. */
  predicate WellFormed(f: Form) {
    && f.userInfo.Keys == InitialInfo.Keys
    && f.editedInfo.Keys == InitialInfo.Keys
    && (forall k :: k in ReadOnlyFields ==> f.userInfo[k] == InitialInfo[k] && f.editedInfo[k] == InitialInfo[k])
  }

  /** Every event the form offers keeps it well formed. */
  lemma EventsKeepWellFormed(f: Form, field: string, value: string)
    requires WellFormed(f)
    ensures WellFormed(Edit(f)) && WellFormed(Save(f)) && WellFormed(Cancel(f))
    ensures Editable(field) ==> WellFormed(InputChange(f, field, value))
  {
  }

  class ProfileForm {
    var isEditing: bool
    var userInfo: Record
    var editedInfo: Record

    function State(): Form
      reads this
    {
      Form(isEditing, userInfo, editedInfo)
    }

    ghost predicate Valid()
      reads this
    {
      WellFormed(State())
    }

    constructor ()
      ensures Valid() && State() == InitialForm
    {
      isEditing := false;
      userInfo := InitialInfo;
      editedInfo := InitialInfo;
    }

    method HandleEdit()
      requires Valid() && !isEditing
      modifies this
      ensures Valid() && State() == Edit(old(State()))
    {
      isEditing := true;
      editedInfo := userInfo;
    }

    method HandleSave()
      requires Valid() && isEditing
      modifies this
      ensures Valid() && State() == Save(old(State()))
    {
      userInfo := editedInfo;
      isEditing := false;
    }

    method HandleCancel()
      requires Valid() && isEditing
      modifies this
      ensures Valid() && State() == Cancel(old(State()))
    {
      editedInfo := userInfo;
      isEditing := false;
    }

    /** Typing into an input, which only an editable field in edit mode accepts. */
    method HandleInputChange(field: string, value: string)
      requires Valid() && isEditing && Editable(field)
      modifies this
      ensures Valid() && State() == InputChange(old(State()), field, value)
    {
      editedInfo := editedInfo[field := value];
    }
  }
}
