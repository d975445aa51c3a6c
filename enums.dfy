/** The string-backed enumerations of the program, as closed datatypes. */
module Filters {

  /** Difficulty of a question (src/enums/filters.enum.ts, `Levels`). */
  datatype Level = Beginner | Intermediate | Advanced

  /** Subject a question is filed under (src/enums/filters.enum.ts, `Technologies`). */
  datatype Technology = JavaScript | DOM | TypeScript | Angular | Redux | NgRx | RxJS

  /** Every technology once, in declaration order. */
  const AllTechnologies: seq<Technology> := [JavaScript, DOM, TypeScript, Angular, Redux, NgRx, RxJS]
}

/**
 * The self-assessment scale. Its TypeScript definition is not part of this
 * model; the four declared values are the ones `computeScore` switches on.
 * Responses are parsed from JSON without validation, so a record can carry
 * any other string: `Unrecognized` stands for such a value.
 */
module Scores {

  datatype Score = NotFamiliar | Elementary | Intermediate | Advanced | Unrecognized(raw: string)
}
