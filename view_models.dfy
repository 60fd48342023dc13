/** The creation contract of `CreateTodoViewModel`: two rules on the title,
    whose violations become notifications on the view model, and the mapping
    of the view model to a new Todo. */
module ViewModels {
  import opened Models

  /** One notification per violated rule; the wording is not modelled. */
  datatype Notification = TitleRequired | TitleTooShort

  /** The not-null rule. */
  function NotNullRule(title: Option<string>): (r: seq<Notification>) {
    if title.None? then [TitleRequired] else []
  }

  /** The "longer than 5 characters" rule, checked on a non-null title by its
      UTF-16 length. */
  function LengthRule(title: Option<string>): (r: seq<Notification>) {
    if title.Some? && Utf16Length(title.value) <= TitleLengthBound then [TitleTooShort] else []
  }

  /** The notifications the contract chain produces for a title: both rules
      are evaluated, neither short-circuits the other. */
  function TitleRules(title: Option<string>): (r: seq<Notification>)
    ensures r == [] <==> ValidTitle(title)
    ensures TitleRequired in r <==> title.None?
    ensures title.Some? ==> (TitleTooShort in r <==> Utf16Length(title.value) <= TitleLengthBound)
    ensures forall i, j :: 0 <= i < j < |r| ==> r[i] != r[j]
  {
    NotNullRule(title) + LengthRule(title)
  }

  /** Four letters and one emoji are six UTF-16 code units: such a title is
      long enough, although it holds only five characters. */
  lemma {:induction false} SupplementaryCharCountsTwice()
    ensures |"abcd\U{1F600}"| == 5
    ensures TitleRules(Some("abcd\U{1F600}")) == []
  {
  }

  /** The view model bound from a POST body. Its notification list is the one
      it inherits from the notification base class. */
  class CreateTodoViewModel {
    var title: Option<string>
    var notifications: seq<Notification>

    /** Valid exactly when no notification has been recorded. */
    predicate IsValid()
      reads this
    {
      notifications == []
    }

    /** A freshly bound view model: the posted title, no notifications yet. */
    constructor (title: Option<string>)
      ensures this.title == title && notifications == [] && IsValid()
    {
      this.title := title;
      notifications := [];
    }

    /** Runs the title rules, appends their notifications, and builds the Todo
        with the supplied fresh `id` whether or not the rules passed. */
    method MapTo(id: Guid) returns (todo: Todo)
      modifies this`notifications
      ensures notifications == old(notifications) + TitleRules(title)
      ensures old(notifications) <= notifications
      ensures IsValid() <==> old(IsValid()) && ValidTitle(title)
      ensures todo.id == id && todo.title == title && !todo.done
    {
      notifications := notifications + TitleRules(title);
      todo := Todo(id, title, false);
    }
  }
}
