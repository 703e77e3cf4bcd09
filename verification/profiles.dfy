/** The business profile as the two profile screens edit it: six text fields,
    single-field edits, and the value-to-label tables used for display. */
module Profiles {
  import opened Common

  datatype Fields = Fields(
    businessName: string,
    industry: string,
    businessType: string,
    city: string,
    budgetRange: string,
    goals: string)

  /** The six editable inputs. */
  datatype Field = BusinessName | Industry | BusinessType | City | BudgetRange | Goals

  function Get(p: Fields, f: Field): string {
    match f
    case BusinessName => p.businessName
    case Industry => p.industry
    case BusinessType => p.businessType
    case City => p.city
    case BudgetRange => p.budgetRange
    case Goals => p.goals
  }

  /** One input's change handler: `{ ...profile, field: value }`. The edited
      field reads back the new value and every other field is unchanged. */
  function Set(p: Fields, f: Field, v: string): (q: Fields)
    ensures Get(q, f) == v
    ensures forall g :: g != f ==> Get(q, g) == Get(p, g)
  {
    match f
    case BusinessName => p.(businessName := v)
    case Industry => p.(industry := v)
    case BusinessType => p.(businessType := v)
    case City => p.(city := v)
    case BudgetRange => p.(budgetRange := v)
    case Goals => p.(goals := v)
  }

  /** Setting a field back to the value it had restores the record, and a
      second edit of the same field overrides the first. */
  lemma SetLaws(p: Fields, f: Field, v: string, w: string)
    ensures Set(p, f, Get(p, f)) == p
    ensures Set(Set(p, f, v), f, w) == Set(p, f, w)
  {
  }

  // ---------------------------------------------------------------------------
  // Display labels

  datatype Choice = Choice(value: string, caption: string)

  const BusinessTypes: seq<Choice> := [
    Choice("local", "Local (Physical Location)"),
    Choice("online", "Online (Digital)"),
    Choice("service", "Service-Based")
  ]

  const BudgetRanges: seq<Choice> := [
    Choice("under-500", "Under $500"),
    Choice("500-1000", "$500 - $1,000"),
    Choice("1000-2500", "$1,000 - $2,500"),
    Choice("2500-5000", "$2,500 - $5,000"),
    Choice("5000-plus", "$5,000+")
  ]

  /** Some entry of the table has this value. */
  predicate Known(table: seq<Choice>, value: string) {
    exists k :: 0 <= k < |table| && table[k].value == value
  }

  /** `table.find(c => c.value === value)`: the first entry with that value. */
  function Find(table: seq<Choice>, value: string): (r: Option<Choice>)
    ensures r.None? <==> !Known(table, value)
    ensures r.Some? ==> exists k :: 0 <= k < |table| && table[k] == r.value && r.value.value == value
                          && forall j :: 0 <= j < k ==> table[j].value != value
  {
    if table == [] then None
    else if table[0].value == value then Some(table[0])
    else
      var rest := Find(table[1..], value);
      assert Known(table[1..], value) ==> Known(table, value) by {
        if Known(table[1..], value) {
          var k :| 0 <= k < |table[1..]| && table[1..][k].value == value;
          assert table[k + 1].value == value;
        }
      }
      assert Known(table, value) ==> Known(table[1..], value) by {
        if Known(table, value) {
          var k :| 0 <= k < |table| && table[k].value == value;
          assert k > 0 && table[1..][k - 1].value == value;
        }
      }
      if rest.Some? then
        var k :| 0 <= k < |table[1..]| && table[1..][k] == rest.value && rest.value.value == value
                   && forall j :: 0 <= j < k ==> table[1..][j].value != value;
        assert table[k + 1] == rest.value;
        rest
      else rest
  }

  /** `find(...)?.label || value`: the table's label for a known value, the
      raw value otherwise (or when the label is empty). */
  function LabelOf(table: seq<Choice>, value: string): (s: string)
    ensures !Known(table, value) ==> s == value
  {
    match Find(table, value)
    case Some(c) => if c.caption != "" then c.caption else value
    case None => value
  }

  /** The values of a table are distinct and its labels non-empty, as in both
      tables above. */
  predicate WellFormed(table: seq<Choice>) {
    && (forall a, b :: 0 <= a < b < |table| ==> table[a].value != table[b].value)
    && (forall k :: 0 <= k < |table| ==> table[k].caption != "")
  }

  /** In a well-formed table every value shows its own label. */
  lemma LabelOfKnown(table: seq<Choice>, k: nat)
    requires WellFormed(table) && k < |table|
    ensures LabelOf(table, table[k].value) == table[k].caption
  {
  }

  lemma TablesWellFormed()
    ensures WellFormed(BusinessTypes) && WellFormed(BudgetRanges)
  {
  }
}
