/** How the client's requests read on the server: the bearer header the
    client sends and the delete path it builds from a history entry. */
module EndToEnd {
  import opened Wrappers
  import opened Decimal
  import Api
  import AuthMiddleware
  import CalculationController

  /** The header the client's interceptor sends carries its token to both middlewares. */
  lemma ClientHeaderReadByServer(token: string)
    requires token != "" && ' ' !in token
    ensures AuthMiddleware.StrictToken(Some(Api.BearerHeader(token))) == Some(token)
    ensures AuthMiddleware.OptionalToken(Some(Api.BearerHeader(token))) == Some(token)
  {
    AuthMiddleware.BearerHeaderRoundTrip(token);
  }

  /** Deleting a listed entry names its row: the id the server reads from the
      path is the row's id. */
  lemma DeletePathNamesRow(row: CalculationController.Row)
    requires row.id >= 1
    ensures var url := Api.DeleteUrl(CalculationController.ToHistoryEntry(row).id);
            ParseInteger(url[|Api.CalculationsPath| + 1..]) == Some(row.id)
  {
    ParseIntegerRoundTrip(row.id);
  }
}
