/** The paid messaging services. */
module Services {
  datatype Service = ExcelSms | ApiSms
}
