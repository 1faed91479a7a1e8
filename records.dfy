/**
 * The order record every extractor hands to the insert functions: one line
 * of a purchase order, with the numeric columns already parsed to decimals.
 */
module Records {
  import opened Wrappers
  import opened Dates

  /**
   * A purchase-order line. `line`, `poLine`, the three amounts, both dates and
   * `purchaser` are nullable, as in the dictionaries the extractors build; the
   * Wefabricate `req_date_wf` and the other vendors' `req_date` share `reqDate`.
   */
  datatype OrderRecord = OrderRecord(
    po: string,
    pn: string,
    line: Option<nat>,
    poLine: Option<string>,
    description: string,
    qty: Option<real>,
    netPrice: Option<real>,
    totalPrice: Option<real>,
    reqDate: Option<Date>,
    poPlacedDate: Option<Date>,
    purchaser: Option<string>)
}
