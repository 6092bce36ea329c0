/** The data types the vehicle-search pipeline passes around
    (Autolynx.Core.Models) and the exceptions it can throw. */
module Models {
  import opened Wrappers

  /** VehicleSearchCriteria: every criterion is optional. C# `int` and
      `decimal` become `int` and `real`; nothing in the model does
      arithmetic on them, so their widths do not matter here. */
  datatype VehicleSearchCriteria = VehicleSearchCriteria(
    make: Option<string>,
    model: Option<string>,
    yearMin: Option<int>,
    yearMax: Option<int>,
    priceMin: Option<real>,
    priceMax: Option<real>,
    mileageMax: Option<int>,
    country: Option<string>,
    province: Option<string>,
    city: Option<string>,
    postalCode: Option<string>,
    transmission: Option<string>,
    fuelType: Option<string>)

  /** VehicleSearchResultDto: one vehicle listing. */
  datatype VehicleSearchResultDto = VehicleSearchResultDto(
    make: Option<string>,
    model: Option<string>,
    year: int,
    trim: Option<string>,
    mileage: int,
    color: Option<string>,
    transmission: Option<string>,
    fuelType: Option<string>,
    price: real,
    isGoodPrice: bool,
    listingUrl: Option<string>,
    dealerName: Option<string>,
    sellerPhone: Option<string>,
    sellerEmail: Option<string>,
    location: Option<string>,
    source: Option<string>,
    vin: Option<string>)

  /** The exceptions that leave the core, by .NET exception type. */
  datatype Fault =
    | InvalidOperation(message: string)    // InvalidOperationException
    | ArgumentOutOfRange                   // String.Substring with a negative length
    | UnauthorizedAccess(message: string)  // UnauthorizedAccessException
    | External(description: string)        // anything thrown by an abstracted collaborator

  /** What a search produces: the listings, or the exception it threw. */
  type SearchOutcome = Result<seq<VehicleSearchResultDto>, Fault>
}
