/** The issue-entry screen's label table `t`: an English and a Spanish
    table, and the empty object for every other language code. */
module Translations {
  import opened JsValues

  /** The properties of one label table. */
  datatype LabelKey =
    | RoomNumber | IssueTitle | IssueDescription | Category | Source
    | AssignedPerson | SubmitButton | Maintenance | Cleaning | Other

  function English(k: LabelKey): string {
    match k
    case RoomNumber => "Room Number"
    case IssueTitle => "Issue Title"
    case IssueDescription => "Issue Description"
    case Category => "Category"
    case Source => "Source"
    case AssignedPerson => "Assigned Person"
    case SubmitButton => "Submit Issue"
    case Maintenance => "Maintenance"
    case Cleaning => "Cleaning"
    case Other => "Other"
  }

  function Spanish(k: LabelKey): string {
    match k
    case RoomNumber => "Número de Habitación"
    case IssueTitle => "Título del Problema"
    case IssueDescription => "Descripción del Problema"
    case Category => "Categoría"
    case Source => "Fuente"
    case AssignedPerson => "Persona Asignada"
    case SubmitButton => "Enviar Problema"
    case Maintenance => "Mantenimiento"
    case Cleaning => "Limpieza"
    case Other => "Otro"
  }

  /** Whether `language` selects one of the two tables. */
  predicate HasTable(language: string) {
    language == "en" || language == "es"
  }

  /** `t[k]` where `t` is `{en: …, es: …}[language] || {}`. For a code
      without a table `t` is an object with none of the label properties
      (the empty object, or a prototype member such as `constructor`), so
      every read is `undefined`. */
  function Label(language: string, k: LabelKey): (r: Value)
    ensures r.Str? <==> HasTable(language)
    ensures r.Str? ==> r.text != ""
    ensures language == "en" ==> r == Str(English(k))
    ensures language == "es" ==> r == Str(Spanish(k))
  {
    if language == "en" then Str(English(k))
    else if language == "es" then Str(Spanish(k))
    else Undefined
  }

  /** Within each table the labels are pairwise distinct, so a category
      value written from a table identifies the item that was chosen. */
  lemma LabelsDistinct(language: string, j: LabelKey, k: LabelKey)
    requires HasTable(language) && j != k
    ensures Label(language, j) != Label(language, k)
  {
  }
}
