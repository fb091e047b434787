/** Layout constants of the floating panel and the closed-form window height.
    Coordinates are whole points; every computation on them is an exact
    addition, subtraction or multiplication, so `int` stands for CGFloat. */
module Config {

  /** Width of the floating panel. */
  const WindowWidth: int := 300

  /** Height of one city row. */
  const CityRowHeight: int := 28

  /** Gap between the panel and the screen edges. */
  const ScreenPadding: int := 40

  /** Vertical spacing between two city rows. */
  const ContentSpacing: int := 14

  function Max(a: int, b: int): (m: int)
    ensures m >= a && m >= b && (m == a || m == b)
  {
    if a >= b then a else b
  }

  /** Height of the panel for `cityCount` rows: rows plus the gaps between them,
      and nothing at all for a non-positive count. */
  function WindowHeight(cityCount: int): (h: int)
    ensures h >= 0
  {
    if cityCount <= 0 then 0
    else cityCount * CityRowHeight + Max(0, cityCount - 1) * ContentSpacing
  }

  lemma WindowHeightEmpty(n: int)
    requires n <= 0
    ensures WindowHeight(n) == 0
  {}

  /** n rows and n - 1 gaps: 28·n + 14·(n − 1). */
  lemma WindowHeightRowsAndGaps(n: int)
    requires n >= 1
    ensures WindowHeight(n) == 28 * n + 14 * (n - 1)
    ensures WindowHeight(n) == 42 * n - 14
  {}

  lemma WindowHeightExamples()
    ensures WindowHeight(1) == 28
    ensures WindowHeight(4) == 154
  {}

  /** One more city adds exactly one row and one gap. */
  lemma WindowHeightStep(n: int)
    requires n >= 1
    ensures WindowHeight(n + 1) == WindowHeight(n) + CityRowHeight + ContentSpacing
  {}

  /** The height grows strictly with the number of cities from zero upward. */
  lemma {:induction false} WindowHeightIncreasing(n: int, m: int)
    requires 0 <= n < m
    ensures WindowHeight(n) < WindowHeight(m)
    decreases m - n
  {
    if m > n + 1 {
      WindowHeightIncreasing(n, m - 1);
    }
  }
}
