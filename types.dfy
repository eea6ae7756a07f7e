/** The asset record and its two enumerated domains (types.ts). */
module Types {

  /** `HardwareCategory`: the seven kinds of hardware an asset can be. */
  datatype Category = Laptop | Desktop | Server | Networking | Peripheral | Mobile | Other

  /** `ItemStatus`: the four lifecycle states of an asset. */
  datatype Status = Active | InRepair | Retired | Lost

  /** `InventoryItem`. Dates are kept as the ISO `YYYY-MM-DD` strings the application stores;
      `cost` is a whole number of currency units. */
  datatype Item = Item(
    id: string,
    name: string,
    category: Category,
    vendor: string,
    purchaseDate: string,
    warrantyPeriodYears: int,
    warrantyExpirationDate: string,
    serialNumber: string,
    cost: int,
    status: Status)
}
