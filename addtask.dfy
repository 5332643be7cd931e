/**
 * The stand-alone add-task screen: form validation with the 100- and 500-code-unit limits,
 * and a submit that appends the new task to the stored list.
 */
module AddTask {
  import opened Wrappers
  import opened Text
  import opened Tasks
  import opened Storage

  /** The keys of the `errors` object. */
  datatype Field = Title | Description

  const MaxTitle: nat := 100
  const MaxDescription: nat := 500

  /**
   * `validateForm`'s `newErrors`: a title error for a blank title, otherwise for one longer
   * than 100 code units before trimming; independently, a description error beyond 500.
   */
  function Validate(title: string, description: string): (errors: map<Field, string>)
    ensures Title in errors <==> IsBlank(title) || Utf16Length(title) > MaxTitle
    ensures Description in errors <==> Utf16Length(description) > MaxDescription
    ensures Title in errors ==>
      errors[Title] == (if IsBlank(title) then "Title is required" else "Title must be less than 100 characters")
    ensures Description in errors ==>
      errors[Description] == "Description must be less than 500 characters"
  {
    var titleErrors: map<Field, string> :=
      if Trim(title) == [] then map[Title := "Title is required"]
      else if Utf16Length(title) > MaxTitle then map[Title := "Title must be less than 100 characters"]
      else map[];
    if Utf16Length(description) > MaxDescription
    then titleErrors[Description := "Description must be less than 500 characters"]
    else titleErrors
  }

  /** `Object.keys(newErrors).length === 0`. */
  predicate IsValid(errors: map<Field, string>): (b: bool)
    ensures b <==> Title !in errors && Description !in errors
  {
    NoFieldNoError(errors);
    |errors| == 0
  }

  lemma NoFieldNoError(errors: map<Field, string>)
    ensures |errors| == 0 <==> Title !in errors && Description !in errors
  {
    if |errors| != 0 {
      var f :| f in errors;
      assert f == Title || f == Description;
    } else {
      assert errors == map[];
    }
  }

  lemma ValidIff(title: string, description: string)
    ensures IsValid(Validate(title, description)) <==>
      !IsBlank(title) && Utf16Length(title) <= MaxTitle && Utf16Length(description) <= MaxDescription
  {
    var e := Validate(title, description);
    if |e| == 0 {
      assert Title !in e;
      assert Description !in e;
    } else {
      var f :| f in e;
    }
  }

  /** Exactly 100 code units are accepted and 101 are not. */
  lemma TitleLengthBoundary()
    ensures Title !in Validate(seq(100, _ => 'a'), "")
    ensures Title in Validate(seq(101, _ => 'a'), "")
  {
    Utf16LengthBasic(seq(100, _ => 'a'));
    Utf16LengthBasic(seq(101, _ => 'a'));
    assert !IsWhitespace(seq(100, _ => 'a')[0]);
    assert !IsWhitespace(seq(101, _ => 'a')[0]);
  }

  /** Exactly 500 code units are accepted and 501 are not. */
  lemma DescriptionLengthBoundary()
    ensures Description !in Validate("a", seq(500, _ => 'a'))
    ensures Description in Validate("a", seq(501, _ => 'a'))
  {
    Utf16LengthBasic(seq(500, _ => 'a'));
    Utf16LengthBasic(seq(501, _ => 'a'));
  }

  /** The title limit applies before trimming: "a" followed by 100 spaces is refused. */
  lemma TitleLengthUntrimmed()
    ensures Title in Validate("a" + seq(100, _ => ' '), "")
    ensures Utf16Length(Trim("a" + seq(100, _ => ' '))) == 1
  {
    var t := "a" + seq(100, _ => ' ');
    Utf16LengthBasic(t);
    assert !IsWhitespace(t[0]);
    assert Trim(t)[0] == t[LeadingBlanks(t)];
    assert LeadingBlanks(t) == 0;
    assert |Trim(t)| == 1;
    Utf16LengthBasic(Trim(t));
  }

  /** The two checks are independent: both errors are reported together. */
  lemma BothErrors()
    ensures Validate(" ", seq(501, _ => 'a')).Keys == {Title, Description}
  {
    Utf16LengthBasic(seq(501, _ => 'a'));
  }

  /** The task `handleSubmit` builds from the form. */
  function NewTask(title: string, description: string, priority: Priority, id: string, now: Time)
    : (t: Task)
    ensures t.id == id && t.title == Trim(title) && t.description == Trim(description)
    ensures t.priority == priority && t.status == Pending && t.createdAt == now && t.completedAt == None
  {
    Task(id, Trim(title), Trim(description), priority, Pending, now, None)
  }

  /** A task built from a valid form has a non-blank title within 100 code units and a
      description within 500, and is consistent. */
  lemma ValidFormTaskWithinLimits(title: string, description: string, priority: Priority, id: string, now: Time)
    requires IsValid(Validate(title, description))
    ensures var t := NewTask(title, description, priority, id, now);
      t.title != [] && Utf16Length(t.title) <= MaxTitle
      && Utf16Length(t.description) <= MaxDescription && Consistent(t)
  {
    ValidIff(title, description);
    TrimShortens(title);
    TrimShortens(description);
  }

  /** `[...savedTasks, newTask]` where an absent stored list counts as `[]`. */
  function Appended(saved: Option<seq<Task>>, t: Task): (r: seq<Task>)
    ensures var prior := saved.GetOr([]);
      |r| == |prior| + 1 && r[..|prior|] == prior && r[|prior|] == t
  {
    saved.GetOr([]) + [t]
  }

  class AddTaskScreen {
    var title: string
    var description: string
    var priority: Priority
    var errors: map<Field, string>
    var isSubmitting: bool
    const storage: KeyValueStore<Task>

    constructor (storage: KeyValueStore<Task>)
      ensures this.storage == storage
      ensures title == "" && description == "" && priority == Medium
      ensures errors == map[] && !isSubmitting
    {
      this.storage := storage;
      title, description, priority := "", "", Medium;
      errors, isSubmitting := map[], false;
    }

    /** The inputs' `onChange` handlers. */
    method Edit(newTitle: string, newDescription: string, newPriority: Priority)
      modifies this`title, this`description, this`priority
      ensures title == newTitle && description == newDescription && priority == newPriority
    {
      title, description, priority := newTitle, newDescription, newPriority;
    }

    method ValidateForm() returns (ok: bool)
      modifies this`errors
      ensures errors == Validate(title, description)
      ensures ok == IsValid(errors)
    {
      errors := Validate(title, description);
      ok := |errors| == 0;
    }

    /** `handleSubmit`: an invalid form writes nothing; a valid one appends the new task
        to the stored list. */
    method HandleSubmit(id: string, now: Time)
      modifies this`errors, this`isSubmitting, storage
      ensures errors == Validate(title, description)
      ensures !IsValid(errors) ==>
        storage.items == old(storage.items) && isSubmitting == old(isSubmitting)
      ensures IsValid(errors) ==> isSubmitting && storage.items == old(storage.items)[TasksKey :=
        Appended(old(storage.GetItem(TasksKey)), NewTask(title, description, priority, id, now))]
    {
      var ok := ValidateForm();
      if !ok {
        return;
      }
      isSubmitting := true;
      var t := NewTask(title, description, priority, id, now);
      var saved := storage.GetItem(TasksKey);
      storage.SetItem(TasksKey, Appended(saved, t));
    }
  }
}
