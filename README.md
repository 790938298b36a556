# Landing-page carousel and task card, modelled in Dafny

The landing page of the TaskMaster product is almost entirely static markup.
Two components carry logic, and this project models both.

- **Testimonials carousel** (`testimonials.dfy`, module `Testimonials`). The
  page ships four testimonials and shows them four to a page. A page cursor
  starts at page 0. The page count is the item count divided by four, rounded
  up. The visible cards are the slice that starts at `page * 4` and is four
  long. The previous button wraps from page 0 to the last page. The next
  button wraps from the last page to page 0. One indicator button per page
  jumps straight to its page and is marked current when it is the cursor's
  page. The pure parts are functions: `TotalPages`, `Visible`, `PrevPage`,
  `NextPage`, `Indicators`. The cursor is the mutable field `currentPage` of
  class `Carousel`. Its methods `Prev`, `Next` and `GoTo` update it the way
  the component's state setter does, and they keep the invariant `Valid()`:
  the cursor is always a page that exists.
- **Task card** (`task_card.dfy`, module `TaskCard`). A missing task renders
  nothing. The badge shows the priority text unchanged. The badge style comes
  from a three-entry priority table, with the `Low` style for any priority the
  table lacks. The progress bar's CSS width is the progress capped at 100,
  written as a decimal numeral followed by `%` (as JavaScript writes whole
  numbers of magnitude up to 2^53).

Behaviour notes, where the code decides:

- The component has no guard for an empty list. With no items the page count
  is 0, previous from page 0 gives page -1 and next gives page 1
  (`EmptyListLeavesRange`). The model keeps the updaters exactly as written and
  makes a non-empty list a precondition of the `Carousel` constructor. The
  shipped list has four items, so it meets that precondition and makes one
  page (`ShippedCarousel`).
- A page jump happens only from an indicator button, and those exist only for
  pages `0 .. totalPages - 1`. So the code has no out-of-range error path for
  a jump, and `GoTo` requires an index of an existing button.
- The visible slice follows `Array.prototype.slice` in full (`Slice`): negative
  bounds count from the end, and bounds past the end are clamped.

## Model

| member | source | states |
|---|---|---|
| Testimonials.TotalPages | src/app/Home-page-com/Testimonials.jsx:43 | the page count is the least number of 4-item pages that holds every item: `n <= pages*4` and `(pages-1)*4 < n` |
| Testimonials.Slice | src/app/Home-page-com/Testimonials.jsx:45 | JavaScript slice: never longer than the list; with in-range bounds it is exactly `s[start..end]`; an end past the list is clamped; a negative start counts back from the end; a start at or past the end, or an end at or before a non-negative start, gives `[]` |
| Testimonials.Visible | src/app/Home-page-com/Testimonials.jsx:44-45 | on page p in range the visible cards are the contiguous run `items[p*4 .. min(p*4+4, n)]`, non-empty, at most 4, exactly 4 on every page but the last; past the last page nothing is shown |
| Testimonials.PagesUpToIsPrefix | src/app/Home-page-com/Testimonials.jsx:43-45 | the first k pages read in order are the first `min(4k, n)` items |
| Testimonials.PagesCoverItems | src/app/Home-page-com/Testimonials.jsx:43-45 | reading every page in order gives the item list back: each item is on exactly one page, in order |
| Testimonials.PrevPage | src/app/Home-page-com/Testimonials.jsx:47-49 | previous keeps an in-range cursor in range and equals `(p - 1 + totalPages) mod totalPages`, i.e. page 0 goes to the last page and any other page goes back one |
| Testimonials.NextPage | src/app/Home-page-com/Testimonials.jsx:51-53 | next keeps an in-range cursor in range and equals `(p + 1) mod totalPages`, i.e. the last page goes to 0 and any other page goes forward one |
| Testimonials.PrevUndoesNext | src/app/Home-page-com/Testimonials.jsx:47-53 | previous after next returns to the starting page |
| Testimonials.NextUndoesPrev | src/app/Home-page-com/Testimonials.jsx:47-53 | next after previous returns to the starting page |
| Testimonials.WrapStep | src/app/Home-page-com/Testimonials.jsx:51-53 | one next press moves a position reduced by whole rounds of pages one page on |
| Testimonials.NextTimesShifts | src/app/Home-page-com/Testimonials.jsx:51-53 | k presses of next from page p reach page `p + k` with whole rounds of pages taken away |
| Testimonials.NextCyclesBack | src/app/Home-page-com/Testimonials.jsx:51-53 | pressing next `totalPages` times returns to the starting page |
| Testimonials.EmptyListLeavesRange | src/app/Home-page-com/Testimonials.jsx:43-53 | with no items there are 0 pages, and the unguarded previous and next give pages -1 and 1 |
| Testimonials.Indicators | src/app/Home-page-com/Testimonials.jsx:131-138 | one indicator per page, in order, button i selects page i, and it is marked current exactly when i is the cursor |
| Testimonials.CurrentCountOfRow | src/app/Home-page-com/Testimonials.jsx:134-137 | the number of indicators marked current is 1 when the cursor is in range and 0 otherwise |
| Testimonials.ExactlyOneCurrent | src/app/Home-page-com/Testimonials.jsx:134-137 | with the cursor in range exactly one indicator is marked current |
| Testimonials.ShippedCarousel | src/app/Home-page-com/Testimonials.jsx:9-45 | the four shipped testimonials make exactly one page that shows all of them; previous and next both stay on page 0; the authors used as card keys are distinct |
| Testimonials.Carousel.Shown | src/app/Home-page-com/Testimonials.jsx:44-45 | the cards shown for the live cursor are its page's contiguous run `items[p*4 .. min(p*4+4, n)]`, non-empty and at most 4 |
| Testimonials.Carousel.constructor | src/app/Home-page-com/Testimonials.jsx:41 | the cursor starts at page 0, inside the page range, showing the first up-to-4 items |
| Testimonials.Carousel.Prev | src/app/Home-page-com/Testimonials.jsx:47-49 | the previous button sets the cursor to the previous page with wraparound and keeps it in range |
| Testimonials.Carousel.Next | src/app/Home-page-com/Testimonials.jsx:51-53 | the next button sets the cursor to the next page with wraparound and keeps it in range |
| Testimonials.Carousel.GoTo | src/app/Home-page-com/Testimonials.jsx:131-135 | clicking indicator i sets the cursor to i, keeps it in range, and the page shown at once is `items[i*4 .. min(i*4+4, n)]` |
| TaskCard.BadgeStyle | src/app/Home-page-com/TaskCard.jsx:26 | the badge style is always one of the table's styles, and it is the Low style exactly when the priority is neither High nor Medium |
| TaskCard.KnownPriorityStyles | src/app/Home-page-com/TaskCard.jsx:7-11 | High, Medium and Low each get their own table entry, and the three styles differ |
| TaskCard.UnknownPriorityFallsBack | src/app/Home-page-com/TaskCard.jsx:26 | a priority missing from the table is styled as Low |
| TaskCard.BarPercent | src/app/Home-page-com/TaskCard.jsx:34 | the bar width never exceeds 100 or the progress, and it is either the progress (any value up to 100, negatives included) or 100 |
| TaskCard.BarPercentMonotone | src/app/Home-page-com/TaskCard.jsx:34 | capping keeps the order of progress values and capping twice is capping once |
| TaskCard.NatToDecimal | src/app/Home-page-com/TaskCard.jsx:34 | the number in the width string is a non-empty run of digits with no leading zero |
| TaskCard.DecimalRoundTrip | src/app/Home-page-com/TaskCard.jsx:34 | reading the digits back gives the number written |
| TaskCard.IntToDecimal | src/app/Home-page-com/TaskCard.jsx:34 | the number written into the width string reads back as the integer written, negatives included |
| TaskCard.BarWidth | src/app/Home-page-com/TaskCard.jsx:34 | the width string ends in `%` and the text before it reads back as the capped progress |
| TaskCard.FullBarAtOrAbove100 | src/app/Home-page-com/TaskCard.jsx:34 | any progress of 100 or more gives the width `100%` |
| TaskCard.Render | src/app/Home-page-com/TaskCard.jsx:13-34 | a missing task renders nothing and a present one renders a card; the card keeps the title, shows the priority text unchanged, styles it from the table with the Low fallback, and sets the bar width from the capped progress |

## Left out

- Testimonials.Carousel.constructor: requires a non-empty item list. The code does not guard the empty case, and with it the previous and next buttons move the cursor out of range (stated by `EmptyListLeavesRange`); the shipped list is non-empty.
- Testimonials.Carousel.GoTo: requires an index of an existing indicator button; the code can only be called that way, so no out-of-range error path is modelled.
- Animation: the carousel's entrance fade on first view and its slide between pages, and the task card's entrance motion with its `delay` argument (default 0), are library calls and timing, with no logic.
- Layout markup and style class strings, and the static content of the other landing-page sections, are data with no behaviour.
- The star row of a testimonial card (one star per rating point) is markup and is not modelled.
- The navigation bar's scroll tracking, debounce, theme toggle and mobile-menu toggle are browser input and an external theme provider.
- The footer's newsletter form and its copyright year are form events, console output and the system clock.
- The hero section's mounted flag is a rendering detail of the UI framework.
- TaskCard.BarWidth: JavaScript writes whole numbers above 2^53 rounded to the shortest decimal that reads back as the same double (`-18446744073709552000%` for -2^64), and those of magnitude 1e21 or more in exponent form (`-1e+21%`); the model writes the exact digits.
- TaskCard.Render: progress is a whole number. Fractional and non-numeric progress values and their string forms (such as `NaN%`) are floating point and are not modelled.
- TaskCard.Render: only a missing task renders nothing. Other values that JavaScript treats as false are not modelled.
- TaskCard.BadgeStyle: priorities are looked up in a plain map. A JavaScript object lookup would also find inherited property names such as `toString`, and that case is not modelled.
