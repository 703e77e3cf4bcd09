/** A weekly recommendation (one row of the backend's weekly_recommendations
    table) and the normalisation of its step list, which the backend may hand
    back as an array, as a JSON-encoded string, or as anything else. */
module Recommendations {

  /** The three shapes `step_by_step_actions` can arrive in. */
  datatype StepsValue =
    | StepsArray(items: seq<string>)
    | StepsText(text: string)
    | StepsOther

  datatype Recommendation = Recommendation(
    id: string,
    title: string,
    weekNumber: int,
    whyThisWorks: string,
    steps: StepsValue,
    copyTemplates: string,
    estimatedTime: string,
    expectedResult: string)

  /** An array is taken as is, a string goes through the JSON decoder `parse`
      (an uninterpreted function here), anything else is the empty list. */
  function NormalizeSteps(v: StepsValue, parse: string -> seq<string>): (steps: seq<string>)
    ensures v.StepsArray? ==> steps == v.items
    ensures v.StepsText? ==> steps == parse(v.text)
    ensures v.StepsOther? ==> steps == []
  {
    match v
    case StepsArray(items) => items
    case StepsText(text) => parse(text)
    case StepsOther => []
  }
}
