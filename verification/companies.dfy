/** The company screen: companies, the two-field form, and how a record pre-fills it.
    The add/update/delete transitions are the shared `EditController` ones with the
    defaults given here. The order and return-order forms also look companies up by name
    to fill their platform check boxes. */
module Companies {
  import opened Options
  import opened EditController

  /** A company as listed by the server. */
  datatype Company = Company(id: string, name: string, platforms: seq<string>)

  /** The form values of the company screen. */
  datatype CompanyForm = CompanyForm(name: string, platforms: seq<string>)

  /** `reset()` brings the form back to `{ name: "", platforms: [] }`. */
  const Defaults := CompanyForm("", [])

  /** `handleEdit`: the name and the platforms of the company go into the form. */
  function Prefill(c: Company): (f: CompanyForm)
    ensures f.name == c.name && f.platforms == c.platforms
  {
    CompanyForm(c.name, c.platforms)
  }

  function IdOf(c: Company): string { c.id }

  /** The record an update saves: `{ id: editing._id, ...data }`. */
  function Saved(id: string, f: CompanyForm): Company
  {
    Company(id, f.name, f.platforms)
  }

  /** Editing a company and submitting the untouched form asks the server to store the
      same company again, under its own id. */
  lemma EditThenSubmitResends(s: State<Company, CompanyForm>, c: Company)
    ensures var q := SubmitRequest(Edit(s, c, Prefill(c)), IdOf);
            q.Update? && q.id == c.id && Saved(q.id, q.body) == c
  {
  }

  /** A successful submit, whether it added or updated, leaves the screen with nothing
      selected, the form at `{ name: "", platforms: [] }`, no error, and the list fetched
      again; a failed one keeps what was being edited and typed. */
  lemma SubmitOutcome(s: State<Company, CompanyForm>, outcome: Outcome)
    ensures outcome.Succeeded? ==>
              Submit(s, Defaults, outcome) == Step(State(None, CompanyForm("", []), ""), true)
    ensures outcome.Failed? ==>
              Submit(s, Defaults, outcome) == Step(s.(error := OrElse(outcome.message, OperationFailed)), false)
  {
  }

  /** `companies.find(company => company.name === name)`, then its platforms, or `[]`
      when no company has that name: the platforms of the FIRST company with that name. */
  function PlatformsFor(companies: seq<Company>, name: string): (ps: seq<string>)
    ensures (forall i :: 0 <= i < |companies| ==> companies[i].name != name) ==> ps == []
    ensures forall i :: 0 <= i < |companies| && companies[i].name == name
                        && (forall j :: 0 <= j < i ==> companies[j].name != name)
                        ==> ps == companies[i].platforms
  {
    if |companies| == 0 then []
    else if companies[0].name == name then companies[0].platforms
    else PlatformsFor(companies[1..], name)
  }
}
