/** The transport calculator route (app.py:199-221): revenue before and
    after the transport cost the farmer enters. Form values are taken as
    already-converted numbers, `real` in place of Python's `float`. */
module Transport {
  import opened Wrappers

  /** The three form fields; `None` when the field is missing. */
  datatype TransportForm = TransportForm(quantity: Option<real>, price: Option<real>,
                                         transportCost: Option<real>)

  datatype TransportRequest = Get | Post(form: TransportForm)

  datatype TransportResult = TransportResult(grossRevenue: real, transportCost: real,
                                             netRevenue: real)

  /** `float(request.form.get(name, 0))`: a missing field counts as 0. */
  function FieldOrZero(v: Option<real>): (x: real)
    ensures v.None? ==> x == 0.0
    ensures v.Some? ==> x == v.value
  {
    match v
    case None => 0.0
    case Some(x) => x
  }

  /** app.py:201-215: GET shows no result; POST computes the revenues
      and echoes the transport cost. */
  function TransportCalculator(req: TransportRequest): (result: Option<TransportResult>)
    ensures result.Some? <==> req.Post?
    ensures result.Some? ==>
              var q, p, c := FieldOrZero(req.form.quantity), FieldOrZero(req.form.price),
                             FieldOrZero(req.form.transportCost);
              && result.value.transportCost == c
              && result.value.grossRevenue == q * p
              && result.value.netRevenue + result.value.transportCost == result.value.grossRevenue
  {
    match req
    case Get => None
    case Post(form) =>
      var quantity := FieldOrZero(form.quantity);
      var price := FieldOrZero(form.price);
      var transportCost := FieldOrZero(form.transportCost);
      var grossRevenue := quantity * price;
      var netRevenue := grossRevenue - transportCost;
      Some(TransportResult(grossRevenue, transportCost, netRevenue))
  }

  /** A form with every field missing gives an all-zero result. */
  lemma EmptyFormGivesZero()
    ensures TransportCalculator(Post(TransportForm(None, None, None)))
              == Some(TransportResult(0.0, 0.0, 0.0))
  {
  }
}
