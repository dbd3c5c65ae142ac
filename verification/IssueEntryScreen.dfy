/** The issue-entry screen as a sequential state machine: the handlers its
    inputs, menus and button are bound to, applied one event at a time. */
module IssueEntryScreen {
  import opened JsValues
  import Translations
  import opened IssueDraft
  import opened IssuePayload
  import opened Submission

  datatype Menu = CategoryMenu | AssigneeMenu

  /** One menu entry: the title shown and the value its press writes. */
  datatype MenuItem = MenuItem(title: Value, value: Value)

  /** The category menu: maintenance, cleaning, other, each writing its own
      title from the current table. */
  function CategoryItems(language: string): (items: seq<MenuItem>)
    ensures |items| == 3
    ensures forall i :: 0 <= i < |items| ==> items[i].value == items[i].title
    ensures items[0].value == Translations.Label(language, Translations.Maintenance)
    ensures items[1].value == Translations.Label(language, Translations.Cleaning)
    ensures items[2].value == Translations.Label(language, Translations.Other)
  {
    [MenuItem(Translations.Label(language, Translations.Maintenance), Translations.Label(language, Translations.Maintenance)),
     MenuItem(Translations.Label(language, Translations.Cleaning), Translations.Label(language, Translations.Cleaning)),
     MenuItem(Translations.Label(language, Translations.Other), Translations.Label(language, Translations.Other))]
  }

  /** The assigned-person menu: three fixed names; only the last title is
      translated, its value stays the literal `'Other'`. */
  function AssigneeItems(language: string): (items: seq<MenuItem>)
    ensures |items| == 3
    ensures forall i :: 0 <= i < |items| ==> items[i].value in AssigneeValues - {Str("")}
    ensures items[2].title == Translations.Label(language, Translations.Other)
  {
    [MenuItem(Str("John Doe"), Str("John Doe")),
     MenuItem(Str("Jane Smith"), Str("Jane Smith")),
     MenuItem(Translations.Label(language, Translations.Other), Str("Other"))]
  }

  function Items(m: Menu, language: string): seq<MenuItem> {
    match m
    case CategoryMenu => CategoryItems(language)
    case AssigneeMenu => AssigneeItems(language)
  }

  /** The draft field a menu writes. */
  function MenuField(m: Menu): Field {
    match m
    case CategoryMenu => Category
    case AssigneeMenu => AssignedPerson
  }

  /** Every value the category field can hold: empty, a label of either
      table, or `undefined` when picked under a language without a table. */
  const CategoryValues: set<Value> :=
    {Str(""), Undefined, Str("Maintenance"), Str("Cleaning"), Str("Other"),
     Str("Mantenimiento"), Str("Limpieza"), Str("Otro")}

  /** Every value the assigned-person field can hold. */
  const AssigneeValues: set<Value> := {Str(""), Str("John Doe"), Str("Jane Smith"), Str("Other")}

  /** Menu choices, whatever the language: category values are the current
      table's three labels, assigned-person values the three literals. */
  lemma MenuValues(language: string, i: nat)
    requires i < 3
    ensures CategoryItems(language)[i].value in CategoryValues
    ensures CategoryItems(language)[i].value.Undefined? <==> !Translations.HasTable(language)
    ensures AssigneeItems(language)[i].value == [Str("John Doe"), Str("Jane Smith"), Str("Other")][i]
  {
  }

  /** Fields with a text input bound to `handleChange`. The category and
      assigned-person inputs only open their menus; typing into them
      changes nothing. */
  predicate HasTextInput(f: Field) {
    f != Category && f != AssignedPerson
  }

  /** The screen: its form, the session pair it read on mount, and the
      language supplied by the language context. */
  datatype State = State(form: Form, session: Session, language: string)

  /** The screen just mounted, before the stored session has been read. */
  function Mounted(language: string): State {
    State(InitialForm, NoSession, language)
  }

  datatype Event =
    | SessionLoaded(storedUsername: Option<string>, storedHotelId: Option<string>)
    | LanguageChanged(code: string)
    | TextTyped(field: Field, text: string)
    | MenuOpened(menu: Menu)
    | MenuDismissed(menu: Menu)
    | MenuItemPressed(menu: Menu, index: nat)
    | SubmitPressed(outcome: Outcome)

  /** What one event does to the screen. */
  datatype Reaction = Reaction(state: State, effects: seq<Effect>, sent: Option<Payload>)

  /** `setCategoryMenuVisible(v)` or `setAssignedPersonMenuVisible(v)`. */
  function SetMenuVisible(f: Form, m: Menu, visible: bool): (r: Form)
    ensures r.draft == f.draft
    ensures m == CategoryMenu ==>
              r.categoryMenuVisible == visible && r.assignedPersonMenuVisible == f.assignedPersonMenuVisible
    ensures m == AssigneeMenu ==>
              r.assignedPersonMenuVisible == visible && r.categoryMenuVisible == f.categoryMenuVisible
  {
    match m
    case CategoryMenu => f.(categoryMenuVisible := visible)
    case AssigneeMenu => f.(assignedPersonMenuVisible := visible)
  }

  function Handle(st: State, ev: Event): (r: Reaction)
    // only a submit press emits effects, and only one with a session sends a request
    ensures r.sent.Some? ==> ev.SubmitPressed? && Present(st.session)
    ensures !ev.SubmitPressed? ==> r.effects == [] && r.sent.None?
    // a submit press does what `handleSubmit` does to the form, and nothing else
    ensures ev.SubmitPressed? ==>
              var sr := Submit(st.form, st.session, ev.outcome);
              r.state == st.(form := sr.form) && r.effects == sr.effects && r.sent == sr.sent
    // the anchors open their menus, dismissal closes them
    ensures ev.MenuOpened? ==> r.state == st.(form := SetMenuVisible(st.form, ev.menu, true))
    ensures ev.MenuDismissed? ==> r.state == st.(form := SetMenuVisible(st.form, ev.menu, false))
    // the mount effect stores the normalised session; the context supplies the language
    ensures ev.SessionLoaded? ==> r.state == st.(session := LoadSession(ev.storedUsername, ev.storedHotelId))
    ensures ev.LanguageChanged? ==> r.state == st.(language := ev.code)
    // only a session-loaded event changes the session, only a language change the language
    ensures !ev.SessionLoaded? ==> r.state.session == st.session
    ensures !ev.LanguageChanged? ==> r.state.language == st.language
    // the category field changes only by a category pick or a successful submit
    ensures r.state.form.draft.category != st.form.draft.category ==>
              (ev.MenuItemPressed? && ev.menu == CategoryMenu) || (ev.SubmitPressed? && r.state.form == InitialForm)
    ensures r.state.form.draft.assignedPerson != st.form.draft.assignedPerson ==>
              (ev.MenuItemPressed? && ev.menu == AssigneeMenu) || (ev.SubmitPressed? && r.state.form == InitialForm)
    // typing writes exactly the typed text into a field with a text input, and nothing else
    ensures ev.TextTyped? && HasTextInput(ev.field) ==>
              r.state == st.(form := st.form.(draft := SetField(st.form.draft, ev.field, Str(ev.text))))
    ensures ev.TextTyped? && !HasTextInput(ev.field) ==> r.state == st
    // a menu pick writes the chosen item's value and leaves the menu open
    ensures ev.MenuItemPressed? && ev.index < 3 ==>
              r.state == st.(form := st.form.(draft := SetField(st.form.draft, MenuField(ev.menu),
                                                                Items(ev.menu, st.language)[ev.index].value)))
    // a press past the last item matches no item and changes nothing
    ensures ev.MenuItemPressed? && ev.index >= 3 ==> r.state == st
  {
    match ev
    case SessionLoaded(u, h) =>
      Reaction(st.(session := LoadSession(u, h)), [], None)
    case LanguageChanged(code) =>
      Reaction(st.(language := code), [], None)
    case TextTyped(f, text) =>
      if HasTextInput(f) then
        Reaction(st.(form := st.form.(draft := SetField(st.form.draft, f, Str(text)))), [], None)
      else
        Reaction(st, [], None)
    case MenuOpened(m) =>
      Reaction(st.(form := SetMenuVisible(st.form, m, true)), [], None)
    case MenuDismissed(m) =>
      Reaction(st.(form := SetMenuVisible(st.form, m, false)), [], None)
    case MenuItemPressed(m, i) =>
      var items := Items(m, st.language);
      if i < |items| then
        var d := SetField(st.form.draft, MenuField(m), items[i].value);
        Reaction(st.(form := st.form.(draft := d)), [], None)
      else
        Reaction(st, [], None)
    case SubmitPressed(o) =>
      var r := Submit(st.form, st.session, o);
      Reaction(st.(form := r.form), r.effects, r.sent)
  }

  /** The state reached by a sequence of events, the effects emitted and the
      bodies sent, in order. */
  datatype Trace = Trace(state: State, effects: seq<Effect>, sent: seq<Payload>)

  /** The number of submit presses among `evs`. */
  function SubmitCount(evs: seq<Event>): nat
    decreases |evs|
  {
    if evs == [] then 0 else (if evs[0].SubmitPressed? then 1 else 0) + SubmitCount(evs[1..])
  }

  /** The events `evs` handled one after another, each to completion; at
      most one request per submit press. */
  function Run(st: State, evs: seq<Event>): (t: Trace)
    ensures |t.sent| <= SubmitCount(evs)
    decreases |evs|
  {
    if evs == [] then Trace(st, [], [])
    else
      var r := Handle(st, evs[0]);
      var rest := Run(r.state, evs[1..]);
      Trace(rest.state, r.effects + rest.effects,
            (if r.sent.Some? then [r.sent.value] else []) + rest.sent)
  }

  /** The menu-only fields hold only values a menu can write. */
  predicate PickerFieldsValid(d: Draft) {
    d.category in CategoryValues && d.assignedPerson in AssigneeValues
  }

  /** What every body the screen sends satisfies. */
  predicate WellFormedBody(p: Payload) {
    && p.Keys == DraftKeys + SessionKeys
    && p["category"] in CategoryValues
    && p["assignedPerson"] in AssigneeValues
    && p["addUser"].Str? && p["addUser"].text != ""
    && p["hotelId"].Str? && p["hotelId"].text != ""
  }

  lemma HandlePreservesPickerFields(st: State, ev: Event)
    requires PickerFieldsValid(st.form.draft)
    ensures PickerFieldsValid(Handle(st, ev).state.form.draft)
  {
  }

  lemma SubmitSendsWellFormedBody(f: Form, s: Session, o: Outcome)
    requires PickerFieldsValid(f.draft)
    ensures Submit(f, s, o).sent.Some? ==> WellFormedBody(Submit(f, s, o).sent.value)
  {
  }

  /** From any state whose menu-only fields are valid, every later state
      keeps them valid and every body sent is well formed: the category is
      empty, a label or `undefined`, the assigned person empty or one of the
      three names, and both session properties non-empty. */
  lemma {:induction false} RunSendsWellFormedBodies(st: State, evs: seq<Event>)
    requires PickerFieldsValid(st.form.draft)
    ensures PickerFieldsValid(Run(st, evs).state.form.draft)
    ensures forall p :: p in Run(st, evs).sent ==> WellFormedBody(p)
    decreases |evs|
  {
    if evs != [] {
      HandlePreservesPickerFields(st, evs[0]);
      if evs[0].SubmitPressed? {
        SubmitSendsWellFormedBody(st.form, st.session, evs[0].outcome);
      }
      RunSendsWellFormedBodies(Handle(st, evs[0]).state, evs[1..]);
    }
  }

  /** A freshly mounted screen sends only well-formed bodies. */
  lemma MountedSendsWellFormedBodies(language: string, evs: seq<Event>)
    ensures forall p :: p in Run(Mounted(language), evs).sent ==> WellFormedBody(p)
  {
    RunSendsWellFormedBodies(Mounted(language), evs);
  }

  /** Every submit press gets exactly one user-visible notice, and nothing
      else shows one. */
  lemma {:induction false} OneNoticePerSubmit(st: State, evs: seq<Event>)
    ensures |Notices(Run(st, evs).effects)| == SubmitCount(evs)
    decreases |evs|
  {
    if evs != [] {
      var r := Handle(st, evs[0]);
      NoticesAppend(r.effects, Run(r.state, evs[1..]).effects);
      OneNoticePerSubmit(r.state, evs[1..]);
    }
  }

  /** Until the stored session has been read, no request is ever sent. */
  lemma {:induction false} NoRequestWithoutSession(st: State, evs: seq<Event>)
    requires !Present(st.session)
    requires forall i :: 0 <= i < |evs| ==> !evs[i].SessionLoaded?
    ensures Run(st, evs).sent == []
    decreases |evs|
  {
    if evs != [] {
      NoRequestWithoutSession(Handle(st, evs[0]).state, evs[1..]);
    }
  }
}
