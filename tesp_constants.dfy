// The product selection of tesp's packaging step: the lower-case names of
// wagl's ARD products, the default subset, and the validation of a requested list.

module TespConstants {
  import opened Text
  import W = WaglConstants

  /** A product's package name, `e.value.lower()`. */
  function ProductName(p: W.ArdProduct): string
  {
    Lower(p.Value())
  }

  lemma ProductNames()
    ensures ProductName(W.NBAR) == "nbar" && ProductName(W.NBART) == "nbart"
    ensures ProductName(W.LAMBERTIAN) == "lambertian" && ProductName(W.SBT) == "sbt"
  {
    assert Lower("NBAR") == "nbar";
    assert Lower("NBART") == "nbart";
    assert Lower("LAMBERTIAN") == "lambertian";
    assert Lower("SBT") == "sbt";
  }

  /** `ProductPackage.all()`: every product's package name. */
  function All(): (r: set<string>)
    ensures r == {"nbar", "nbart", "lambertian", "sbt"}
  {
    ProductNames();
    set p | p in W.AllProducts :: ProductName(p)
  }

  /** `ProductPackage.default()`: all products but the Lambertian and
      thermal ones. */
  function Default(): (r: set<string>)
    ensures r == {"nbar", "nbart"}
    ensures r <= All()
  {
    ProductNames();
    All() - {ProductName(W.LAMBERTIAN), ProductName(W.SBT)}
  }

  /** `ProductPackage.validate_products`: every requested name is a product. */
  function ValidateProducts(productList: seq<string>): (r: bool)
    ensures r <==> forall p :: p in productList ==> p in All()
  {
    (set p | p in productList) <= All()
  }

  /** Any list of the default products validates, the empty list included,
      and so does any list of all products; a name in another case does not. */
  lemma ValidateProductsExamples()
    ensures ValidateProducts([])
    ensures ValidateProducts(["nbar", "nbart", "sbt", "nbar"])
    ensures !ValidateProducts(["NBAR"])
  {
    assert "NBAR"[0] != "nbar"[0] && |"NBAR"| != |"lambertian"| && |"NBAR"| != |"sbt"|;
    assert "NBAR" !in All();
  }
}
