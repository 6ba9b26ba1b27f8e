/** The rule as internal/db/rules.go declares it, without database ids. */
module RuleTypes {
  datatype Condition = Condition(field: string, operator: string, value: string)

  datatype Group = Group(operator: string, conditions: seq<Condition>, groups: seq<Group>)

  datatype Action = Action(kind: string, value: string)

  datatype Rule = Rule(
    id: int,
    name: string,
    description: string,
    priority: int,
    enabled: bool,
    scheduleDays: string,
    scheduleStart: string,
    scheduleEnd: string,
    groups: seq<Group>,
    actions: seq<Action>)

  /** A field "header:Name" names a header of the message. */
  predicate IsHeader(field: string) {
    "header:" <= field
  }

  function HeaderName(field: string): string
    requires IsHeader(field)
  {
    field[7..]
  }

  /** Every group, at every depth, is an AND or an OR. */
  predicate AndOr(g: Group)
    decreases g, 1
  {
    g.operator in {"AND", "OR"} && AllAndOr(g.groups)
  }

  predicate AllAndOr(gs: seq<Group>)
    decreases gs, 0
  {
    gs == [] || (AndOr(gs[0]) && AllAndOr(gs[1..]))
  }
}
